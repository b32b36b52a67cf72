/** Which routes have a message kind at all, in terms of their texts. */
module RouteMeaning {
  import opened Wrappers
  import opened Routes

  /** The route goes on after this head. */
  predicate GoesOn(route: string, head: string) {
    head + "/" <= route
  }

  function Named(a: string, b: string, path: string): string {
    a + "/" + b + "/" + path
  }

  /** Two names, the path, and then more. */
  ghost predicate Begins(route: string, path: string) {
    exists a, b :: SlashFree(a) && SlashFree(b) && GoesOn(route, Named(a, b, path))
  }

  /** Two names and the path, and then perhaps more. */
  ghost predicate Reaches(route: string, path: string) {
    exists a, b :: SlashFree(a) && SlashFree(b) && (route == Named(a, b, path) || GoesOn(route, Named(a, b, path)))
  }

  /** An app's update at the stage. */
  ghost predicate Updates(route: string, stage: string) {
    exists x :: SlashFree(x) && Reaches(route, "update/app/" + x + "/" + stage)
  }

  predicate EndsIn(route: string, token: string) {
    |token| < |route| && route[|route| - |token| - 1..] == "/" + token
  }

  // ---------- Tokens ----------

  predicate AllFree(tokens: seq<string>) {
    forall t :: t in tokens ==> SlashFree(t)
  }

  lemma JoinCons(head: string, tail: seq<string>)
    requires tail != []
    ensures Join([head] + tail) == head + "/" + Join(tail)
  {
    assert ([head] + tail)[1..] == tail;
  }

  lemma JoinOne(token: string)
    ensures Join([token]) == token
  {
  }

  lemma Regroup(a: string, b: string, c: string, d: string)
    ensures a + b + c + d == a + (b + c + d)
  {
  }

  /** A first token with a character more in front. */
  lemma JoinGrows(c: char, head: string, tail: seq<string>)
    ensures Join([[c] + head] + tail) == [c] + Join([head] + tail)
  {
    JoinOne([c] + head);
    JoinOne(head);
    hide Join;
    if tail == [] {
      assert [[c] + head] + tail == [[c] + head] && [head] + tail == [head];
    } else {
      JoinCons([c] + head, tail);
      JoinCons(head, tail);
      Regroup([c], head, "/", Join(tail));
    }
  }

  lemma {:induction false} JoinSplit(s: string)
    ensures Join(Split(s)) == s && AllFree(Split(s))
    decreases |s|
  {
    if s != "" {
      var rest := Split(s[1..]);
      JoinSplit(s[1..]);
      JoinGrows(s[0], rest[0], rest[1..]);
      assert rest == [rest[0]] + rest[1..];
      JoinCons("", rest);
      assert [s[0]] + s[1..] == s;
      hide Join;
      assert SlashFree(rest[0]);
    }
  }

  lemma {:induction false} JoinAppend(front: seq<string>, back: seq<string>)
    requires front != [] && back != []
    ensures Join(front + back) == Join(front) + "/" + Join(back)
    decreases |front|
  {
    assert (front + back)[1..] == front[1..] + back;
    if |front| > 1 {
      JoinAppend(front[1..], back);
    }
  }

  lemma RegroupTail(a: string, b: string, c: string, d: string)
    ensures (a + b + c) + b + d == a + b + (c + b + d)
  {
  }

  lemma SplitHead(head: string, tail: seq<string>, rest: string)
    requires SlashFree(head) && tail != [] && Split(Join(tail) + "/" + rest) == tail + Split(rest)
    ensures Split(Join([head] + tail) + "/" + rest) == [head] + tail + Split(rest)
  {
    JoinCons(head, tail);
    hide Join, Split, SlashFree;
    RegroupTail(head, "/", Join(tail), rest);
    SplitStep(head, Join(tail) + "/" + rest);
    assert [head] + (tail + Split(rest)) == [head] + tail + Split(rest);
  }

  lemma {:induction false} SplitAppend(tokens: seq<string>, rest: string)
    requires tokens != [] && AllFree(tokens)
    ensures Split(Join(tokens) + "/" + rest) == tokens + Split(rest)
    decreases |tokens|
  {
    var head, tail := tokens[0], tokens[1..];
    assert tokens == [head] + tail;
    assert SlashFree(head) && AllFree(tail);
    hide Join, Split, AllFree, SlashFree;
    if tail == [] {
      JoinOne(head);
      SplitStep(head, rest);
    } else {
      SplitAppend(tail, rest);
      SplitHead(head, tail, rest);
    }
  }

  lemma GoesOnIff(route: string, tokens: seq<string>)
    requires tokens != [] && AllFree(tokens)
    ensures GoesOn(route, Join(tokens)) <==> |tokens| < |Split(route)| && tokens <= Split(route)
  {
    hide Split, Join, AllFree, SlashFree;
    JoinSplit(route);
    var parts, head := Split(route), Join(tokens) + "/";
    if GoesOn(route, Join(tokens)) {
      var rest := route[|head|..];
      assert head + rest == route;
      SplitAppend(tokens, rest);
    }
    if |tokens| < |parts| && tokens <= parts {
      var more := parts[|tokens|..];
      assert tokens + more == parts;
      JoinAppend(tokens, more);
      assert head <= head + Join(more);
    }
  }

  lemma IsIff(route: string, tokens: seq<string>)
    requires tokens != [] && AllFree(tokens)
    ensures route == Join(tokens) <==> Split(route) == tokens
  {
    hide Split, Join, SlashFree;
    JoinSplit(route);
    SplitJoin(tokens);
  }

  lemma LastIff(route: string, token: string)
    requires SlashFree(token) && |Split(route)| > 1
    ensures EndsIn(route, token) <==> Split(route)[|Split(route)| - 1] == token
  {
    hide Split, Join;
    JoinSplit(route);
    SplitToken(token);
    var parts := Split(route);
    if EndsIn(route, token) {
      var front := route[..|route| - |token| - 1];
      JoinSplit(front);
      SplitAppend(Split(front), token);
      assert front + "/" + token == route;
    }
    if parts[|parts| - 1] == token {
      JoinAppend(parts[..|parts| - 1], [token]);
      assert parts[..|parts| - 1] + [token] == parts;
      assert Join([token]) == token by { JoinOne(token); }
    }
  }

  lemma JoinNames(a: string, b: string, path: seq<string>)
    requires path != []
    ensures Join([a, b] + path) == Named(a, b, Join(path))
  {
    JoinAppend([a, b], path);
    assert [a, b][1..] == [b];
    JoinOne(b);
  }

  /** The tokens after the two names. */
  lemma PathIff(route: string, path: seq<string>)
    requires path != [] && AllFree(path)
    ensures var parts := Split(route);
      && (Begins(route, Join(path)) <==> |parts| > 2 + |path| && parts[2..2 + |path|] == path)
      && (Reaches(route, Join(path)) <==> |parts| >= 2 + |path| && parts[2..2 + |path|] == path)
  {
    JoinSplit(route);
    hide Split, Join, GoesOn, Named, SlashFree;
    var parts := Split(route);
    if Begins(route, Join(path)) {
      var a, b :| SlashFree(a) && SlashFree(b) && GoesOn(route, Named(a, b, Join(path)));
      NamesIff(route, a, b, path);
    }
    if Reaches(route, Join(path)) {
      var a, b :| SlashFree(a) && SlashFree(b)
                  && (route == Named(a, b, Join(path)) || GoesOn(route, Named(a, b, Join(path))));
      NamesIff(route, a, b, path);
    }
    if |parts| >= 2 + |path| {
      assert SlashFree(parts[0]) && SlashFree(parts[1]);
      NamesIff(route, parts[0], parts[1], path);
    }
  }

  lemma NamesIff(route: string, a: string, b: string, path: seq<string>)
    requires path != [] && AllFree(path) && SlashFree(a) && SlashFree(b)
    ensures var parts, head := Split(route), Named(a, b, Join(path));
      && (GoesOn(route, head) <==>
            |parts| > 2 + |path| && parts[2..2 + |path|] == path && parts[0] == a && parts[1] == b)
      && (route == head || GoesOn(route, head) <==>
            |parts| >= 2 + |path| && parts[2..2 + |path|] == path && parts[0] == a && parts[1] == b)
  {
    hide Split, Join, GoesOn, Named, SlashFree;
    JoinNames(a, b, path);
    GoesOnIff(route, [a, b] + path);
    IsIff(route, [a, b] + path);
    PrefixParts(Split(route), a, b, path);
  }

  lemma PrefixParts(parts: seq<string>, a: string, b: string, path: seq<string>)
    ensures [a, b] + path <= parts <==>
      |parts| >= 2 + |path| && parts[2..2 + |path|] == path && parts[0] == a && parts[1] == b
  {
    if |parts| >= 2 + |path| && parts[2..2 + |path|] == path && parts[0] == a && parts[1] == b {
      assert parts[..2 + |path|] == [a, b] + parts[2..2 + |path|];
    }
    if [a, b] + path <= parts {
      assert parts[..2 + |path|] == [a, b] + path;
      assert parts[2..2 + |path|] == parts[..2 + |path|][2..];
    }
  }

  // ---------- The kinds ----------

  lemma JoinTwo(a: string, b: string)
    ensures Join([a, b]) == a + "/" + b
  {
    assert [a, b][1..] == [b];
    JoinOne(b);
  }

  lemma JoinThree(a: string, b: string, c: string)
    ensures Join([a, b, c]) == a + "/" + (b + "/" + c)
  {
    assert [a, b, c][1..] == [b, c];
    JoinTwo(b, c);
  }

  lemma Paths()
    ensures Join(["query"]) == "query" && Join(["cmd", "app"]) == "cmd/app"
    ensures Join(["cmd", "lease", "acquire"]) == "cmd/lease/acquire"
    ensures Join(["cmd", "lease", "release"]) == "cmd/lease/release"
  {
    JoinOne("query");
    JoinTwo("cmd", "app");
    JoinThree("cmd", "lease", "acquire");
    JoinThree("cmd", "lease", "release");
    hide Join;
    assert "cmd" + "/" + "app" == "cmd/app";
    assert "cmd" + "/" + ("lease" + "/" + "acquire") == "cmd/lease/acquire";
    assert "cmd" + "/" + ("lease" + "/" + "release") == "cmd/lease/release";
  }

  lemma UpdatePath(x: string, stage: string)
    ensures Join(["update", "app", x, stage]) == "update/app/" + x + "/" + stage
  {
    var t := ["update", "app", x, stage];
    JoinFew(t);
    assert "update" + "/" + ("app" + "/" + (x + "/" + stage)) == ("update" + "/" + "app" + "/") + x + "/" + stage;
    assert "update" + "/" + "app" + "/" == "update/app/";
  }

  lemma UpdatesIff(route: string, stage: string)
    requires SlashFree(stage)
    ensures var parts := Split(route);
      Updates(route, stage) <==> |parts| >= 6 && parts[2..4] == ["update", "app"] && parts[5] == stage
  {
    hide Split, Join, Reaches;
    JoinSplit(route);
    var parts := Split(route);
    forall x | SlashFree(x)
      ensures Reaches(route, "update/app/" + x + "/" + stage) <==>
        |parts| >= 6 && parts[2..6] == ["update", "app", x, stage]
    {
      UpdatePath(x, stage);
      PathIff(route, ["update", "app", x, stage]);
    }
    if |parts| >= 6 && parts[2..4] == ["update", "app"] && parts[5] == stage {
      assert SlashFree(parts[4]);
      assert parts[2..6] == parts[2..4] + [parts[4], parts[5]];
    }
    forall x | |parts| >= 6 && parts[2..6] == ["update", "app", x, stage]
      ensures parts[2..4] == ["update", "app"] && parts[5] == stage
    {
      assert parts[2..4] == parts[2..6][..2] && parts[5] == parts[2..6][3];
    }
  }

  lemma LeaseIff(parts: seq<string>, action: string)
    ensures |parts| >= 5 && parts[2..5] == ["cmd", "lease", action]
       <==> |parts| >= 5 && parts[2..4] == ["cmd", "lease"] && parts[4] == action
  {
    if |parts| >= 5 {
      var three := parts[2..5];
      assert three == parts[2..4] + [parts[4]];
      assert three[..2] == parts[2..4] && three[2] == parts[4];
      assert ["cmd", "lease", action][..2] == ["cmd", "lease"] && ["cmd", "lease", action][2] == action;
    }
  }

  lemma QueryIff(parts: seq<string>)
    ensures |parts| > 3 && parts[2..3] == ["query"] <==> |parts| >= 4 && parts[2] == "query"
  {
  }

  /** The kind of every route there is: each of the ten kinds has its routes, and no other route has one. */
  lemma KindMeans(route: string, callback: bool)
    ensures var kind := KindForRoute(route, callback);
      && (kind == Some("query_request") <==> Begins(route, "query"))
      && (kind == Some("lease_acquire_request") <==> Reaches(route, "cmd/lease/acquire"))
      && (kind == Some("lease_release_request") <==> Reaches(route, "cmd/lease/release"))
      && (kind == Some("callback_config_request") <==>
            Begins(route, "cmd/app") && callback && EndsIn(route, "invoke"))
      && (kind == Some("app_command_request") <==>
            Begins(route, "cmd/app") && !(callback && EndsIn(route, "invoke")))
      && (kind == Some("update_prepare_request") <==> Updates(route, "prepare"))
      && (kind == Some("update_verify_request") <==> Updates(route, "verify"))
      && (kind == Some("update_activate_request") <==> Updates(route, "activate"))
      && (kind == Some("update_rollback_request") <==> Updates(route, "rollback"))
      && (kind == Some("update_delete_request") <==> Updates(route, "delete"))
      && (kind.Some? ==> kind.value in TEN_KINDS)
  {
    var parts := Split(route);
    hide Split, Join, Begins, Reaches, Updates, EndsIn, KindOfParts, StageKind;
    QueryRoutes(route);
    LeaseRoutes(route, "acquire", "cmd/lease/acquire");
    LeaseRoutes(route, "release", "cmd/lease/release");
    AppRoutes(route);
    UpdatesIff(route, "prepare");
    UpdatesIff(route, "verify");
    UpdatesIff(route, "activate");
    UpdatesIff(route, "rollback");
    UpdatesIff(route, "delete");
    Stages();
    KindOfPartsMeans(parts, callback);
  }

  lemma Stages()
    ensures StageKind("prepare") == Some("update_prepare_request")
    ensures StageKind("verify") == Some("update_verify_request")
    ensures StageKind("activate") == Some("update_activate_request")
    ensures StageKind("rollback") == Some("update_rollback_request")
    ensures StageKind("delete") == Some("update_delete_request")
  {
  }

  lemma QueryRoutes(route: string)
    ensures Begins(route, "query") <==> |Split(route)| >= 4 && Split(route)[2] == "query"
  {
    hide Split, Join, Begins, Reaches;
    Paths();
    QueryIff(Split(route));
    PathIff(route, ["query"]);
  }

  lemma LeaseRoutes(route: string, action: string, path: string)
    requires action == "acquire" || action == "release"
    requires path == if action == "acquire" then "cmd/lease/acquire" else "cmd/lease/release"
    ensures Reaches(route, path) <==>
      |Split(route)| >= 5 && Split(route)[2..4] == ["cmd", "lease"] && Split(route)[4] == action
  {
    hide Split, Join, Begins, Reaches;
    Paths();
    LeaseIff(Split(route), action);
    PathIff(route, ["cmd", "lease", action]);
  }

  lemma AppRoutes(route: string)
    ensures var parts := Split(route);
      && (Begins(route, "cmd/app") <==> |parts| >= 5 && parts[2..4] == ["cmd", "app"])
      && (|parts| >= 5 ==> (EndsIn(route, "invoke") <==> parts[|parts| - 1] == "invoke"))
  {
    hide Split, Join, Begins, Reaches, EndsIn;
    Paths();
    PathIff(route, ["cmd", "app"]);
    if |Split(route)| > 1 {
      LastIff(route, "invoke");
    }
  }

  const TEN_KINDS := {
    "query_request", "lease_acquire_request", "lease_release_request", "app_command_request",
    "callback_config_request", "update_prepare_request", "update_verify_request", "update_activate_request",
    "update_rollback_request", "update_delete_request"}

  /** The five ways a route can go on after its two names exclude each other. */
  lemma KindOfPartsMeans(parts: seq<string>, callback: bool)
    requires parts != []
    ensures var kind, app, update := KindOfParts(parts, callback),
                                     |parts| >= 5 && parts[2..4] == ["cmd", "app"],
                                     |parts| >= 6 && parts[2..4] == ["update", "app"];
      && (kind == Some("query_request") <==> |parts| >= 4 && parts[2] == "query")
      && (kind == Some("lease_acquire_request") <==>
            |parts| >= 5 && parts[2..4] == ["cmd", "lease"] && parts[4] == "acquire")
      && (kind == Some("lease_release_request") <==>
            |parts| >= 5 && parts[2..4] == ["cmd", "lease"] && parts[4] == "release")
      && (kind == Some("callback_config_request") <==> app && parts[|parts| - 1] == "invoke" && callback)
      && (kind == Some("app_command_request") <==> app && !(parts[|parts| - 1] == "invoke" && callback))
      && (forall stage :: StageKind(stage).Some? ==> (kind == StageKind(stage) <==> update && parts[5] == stage))
      && (kind.Some? ==> kind.value in TEN_KINDS)
  {
    if |parts| >= 4 {
      assert parts[2..4][0] == parts[2] && parts[2..4][1] == parts[3];
    }
    assert ["cmd", "lease"][1] != ["cmd", "app"][1] && ["cmd", "lease"][0] != ["update", "app"][0];
  }
}

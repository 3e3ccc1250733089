/**
  The long-poll loop of vk_lp_main.py (`longpoll_loop`): how the cursor
  `(server, key, ts)` follows each response, which updates are routed, and
  which command each routed message names. The HTTP requests, the sleeps
  and the heartbeat log are left out; a response is given as an abstract
  value, and `refetch` is what `get_longpoll_server()` would return in this
  iteration (`None` when it raises).
 */
module LongPoll {
  import opened Wrappers
  import opened PyStr

  /** The long-poll cursor. */
  datatype Cursor = Cursor(server: string, key: string, ts: string)

  /** What `resp.json()` yields, or the exception the request raised. */
  datatype Response =
    | TransportError                               // RequestException or JSONDecodeError
    | Failed(code: int, ts: Option<string>)        // `{"failed": code, "ts"?: ...}`
    | Updates(ts: Option<string>, updates: seq<Update>)  // `{"ts"?: ..., "updates": [...]}`

  /** The fields of one element of `updates` that routing reads. `text` is
      `None` for a missing or `null` text; an id that is absent or not an
      integer is `None`; `payloadCmd` is `str(payload_obj.get("cmd") or "")`
      when the payload is a JSON object, and `None` otherwise. */
  datatype Update = Update(kind: string, text: Option<string>, fromId: Option<int>, peerId: Option<int>, payloadCmd: Option<string>)

  /** The handler a routed message reaches; `Unknown` is the fixed
      "unknown command" reply, `Ignore` plain text that gets no reply. */
  datatype Command = New | My | Done | Start | Top10 | Top | Reset | Unknown | Ignore

  /** The routing chain: the payload command counts only for `new`, `my`
      and `done`, each checked together with its text prefix, in this order;
      the remaining prefixes are matched against the lower-cased text. */
  function Classify(payloadCmd: Option<string>, text: string): Command {
    var cmd := if payloadCmd.Some? then Some(Lower(payloadCmd.value)) else None;
    var lower := Lower(text);
    if cmd == Some("new") || StartsWith(lower, "/new") then New
    else if cmd == Some("my") || StartsWith(lower, "/my") then My
    else if cmd == Some("done") || StartsWith(lower, "/done") then Done
    else if StartsWith(lower, "/start") then Start
    else if StartsWith(lower, "/top10") then Top10
    else if StartsWith(lower, "/top") then Top
    else if StartsWith(lower, "/reset") then Reset
    else if StartsWith(lower, "/") then Unknown
    else Ignore
  }

  /** A payload command names a handler only when it is `new`, `my` or
      `done` (in any case); any other payload command routes exactly as if
      there were no payload. A `new` payload wins over any text; `my` loses
      only to a `/new` text, `done` only to `/new` or `/my`. */
  lemma PayloadRouting(c: string, text: string)
    ensures Lower(c) == "new" ==> Classify(Some(c), text) == New
    ensures Lower(c) == "my" ==> Classify(Some(c), text) == (if StartsWith(Lower(text), "/new") then New else My)
    ensures Lower(c) == "done" ==>
      Classify(Some(c), text) == (if StartsWith(Lower(text), "/new") then New else if StartsWith(Lower(text), "/my") then My else Done)
    ensures Lower(c) != "new" && Lower(c) != "my" && Lower(c) != "done" ==> Classify(Some(c), text) == Classify(None, text)
  {
  }

  /** A string that differs from `p` at position `i` (or ends before it)
      does not start with `p`. */
  lemma NotPrefix(l: string, p: string, i: nat)
    requires i < |p| && (i < |l| ==> l[i] != p[i])
    ensures !StartsWith(l, p)
  {
    if |p| <= |l| {
      assert l[..|p|][i] == l[i];
    }
  }

  /** None of the command prefixes matches a string whose first character
      is not `/`. */
  lemma NoCommand(l: string)
    requires l == [] || l[0] != '/'
    ensures !StartsWith(l, "/") && !StartsWith(l, "/new") && !StartsWith(l, "/my") && !StartsWith(l, "/done")
    ensures !StartsWith(l, "/start") && !StartsWith(l, "/top10") && !StartsWith(l, "/top") && !StartsWith(l, "/reset")
  {
    NotPrefix(l, "/", 0);
    NotPrefix(l, "/new", 0);
    NotPrefix(l, "/my", 0);
    NotPrefix(l, "/done", 0);
    NotPrefix(l, "/start", 0);
    NotPrefix(l, "/top10", 0);
    NotPrefix(l, "/top", 0);
    NotPrefix(l, "/reset", 0);
  }

  /** Without a payload, text that does not start with `/` is ignored, and
      only such text. */
  lemma IgnoreRouting(text: string)
    ensures Classify(None, text) == Ignore <==> !StartsWith(Lower(text), "/")
  {
    var l := Lower(text);
    if l != [] && l[0] == '/' {
      assert l[..1] == "/";
    } else {
      NoCommand(l);
    }
  }

  /** `/top10` is recognised before `/top`, and matching ignores letter case. */
  lemma TopRouting(text: string)
    ensures StartsWith(Lower(text), "/top10") ==> Classify(None, text) == Top10
    ensures StartsWith(Lower(text), "/top") && !StartsWith(Lower(text), "/top10") ==> Classify(None, text) == Top
  {
    var l := Lower(text);
    if StartsWith(l, "/top") || StartsWith(l, "/top10") {
      assert l[1] == 't' && l[2] == 'o' by {
        if StartsWith(l, "/top") {
          assert l[..4][1] == 't' && l[..4][2] == 'o';
        } else {
          assert l[..6][1] == 't' && l[..6][2] == 'o';
        }
      }
      NotPrefix(l, "/new", 1);
      NotPrefix(l, "/my", 1);
      NotPrefix(l, "/done", 1);
      NotPrefix(l, "/start", 2);
    }
  }

  /** Text starting with `/` gets the fixed unknown-command reply exactly
      when it starts with none of the commands. */
  lemma UnknownRouting(text: string)
    ensures Classify(None, text) == Unknown <==>
      StartsWith(Lower(text), "/") && !StartsWith(Lower(text), "/new") && !StartsWith(Lower(text), "/my")
      && !StartsWith(Lower(text), "/done") && !StartsWith(Lower(text), "/start") && !StartsWith(Lower(text), "/top")
      && !StartsWith(Lower(text), "/reset")
  {
    var l := Lower(text);
    if StartsWith(l, "/top10") {
      assert l[..4] == l[..6][..4];
      assert l[..4] == "/top";
    }
  }

  /** Routing ignores letter case, in the text and in the payload command. */
  lemma ClassifyIgnoresCase(payloadCmd: Option<string>, text: string)
    ensures Classify(payloadCmd, Lower(text)) == Classify(payloadCmd, text)
    ensures payloadCmd.Some? ==> Classify(Some(Lower(payloadCmd.value)), text) == Classify(payloadCmd, text)
  {
    LowerIdempotent(text);
    if payloadCmd.Some? {
      LowerIdempotent(payloadCmd.value);
    }
  }

  /** A message that reaches a handler or the fixed reply. */
  datatype Routed = Routed(command: Command, fromId: int, peerId: int)

  /** The filters of the update loop, then the classifier: only
      `message_new` updates with a non-blank text, integer sender and peer
      ids and, when an allowed peer is configured, that peer; plain text is
      dropped too. */
  function Route(u: Update, allowedPeer: Option<int>): Option<Routed> {
    var text := Strip(u.text.GetOr(""));
    if u.kind != "message_new" || text == "" || u.fromId.None? || u.peerId.None? then None
    else if allowedPeer.Some? && u.peerId.value != allowedPeer.value then None
    else
      var c := Classify(u.payloadCmd, text);
      if c == Ignore then None else Some(Routed(c, u.fromId.value, u.peerId.value))
  }

  /** A routed update is a `message_new` with non-blank text, its ids are
      copied through, it is addressed to the allowed peer when one is set,
      and its command is the classification of its payload and stripped
      text, never plain text. Conversely every such update is routed. */
  lemma RouteFilters(u: Update, allowedPeer: Option<int>)
    ensures var r := Route(u, allowedPeer);
      r.Some? <==>
        && u.kind == "message_new" && Strip(u.text.GetOr("")) != "" && u.fromId.Some? && u.peerId.Some?
        && (allowedPeer.Some? ==> u.peerId.value == allowedPeer.value)
        && Classify(u.payloadCmd, Strip(u.text.GetOr(""))) != Ignore
    ensures var r := Route(u, allowedPeer);
      r.Some? ==> r.value == Routed(Classify(u.payloadCmd, Strip(u.text.GetOr(""))), u.fromId.value, u.peerId.value)
  {
  }

  /** The routed messages of a batch, in array order. */
  function RouteAll(updates: seq<Update>, allowedPeer: Option<int>): seq<Routed>
    decreases |updates|
  {
    if updates == [] then []
    else
      var init := RouteAll(updates[..|updates| - 1], allowedPeer);
      match Route(updates[|updates| - 1], allowedPeer)
      case Some(r) => init + [r]
      case None => init
  }

  /** Routing a batch in two parts gives the routed messages of the first
      part followed by those of the second: the batch's order is kept. */
  lemma {:induction false} RouteAllAppend(a: seq<Update>, b: seq<Update>, allowedPeer: Option<int>)
    ensures RouteAll(a + b, allowedPeer) == RouteAll(a, allowedPeer) + RouteAll(b, allowedPeer)
    decreases |b|
  {
    if b == [] {
      assert a + b == a;
    } else {
      var b' := b[..|b| - 1];
      assert (a + b)[..|a + b| - 1] == a + b';
      assert (a + b)[|a + b| - 1] == b[|b| - 1];
      RouteAllAppend(a, b', allowedPeer);
    }
  }

  /** Every routed message passes the filters, and a batch never yields
      more messages than it has updates. */
  lemma {:induction false} RouteAllFiltered(updates: seq<Update>, allowedPeer: Option<int>)
    ensures |RouteAll(updates, allowedPeer)| <= |updates|
    ensures forall r :: r in RouteAll(updates, allowedPeer) ==>
      r.command != Ignore && (allowedPeer.Some? ==> r.peerId == allowedPeer.value)
    decreases |updates|
  {
    if updates != [] {
      RouteAllFiltered(updates[..|updates| - 1], allowedPeer);
      RouteFilters(updates[|updates| - 1], allowedPeer);
    }
  }

  /** The loop's state between iterations: the cursor, the cycle counter,
      and whether the loop is still running. */
  datatype PollState = PollState(cursor: Cursor, cycle: nat, running: bool)

  /** One iteration of `while True:`. A transport or JSON error refetches
      the cursor, keeping the old one if that fails, without counting a
      cycle. Otherwise a cycle is counted; `failed == 1` adopts the
      response's `ts` (or keeps the old one); another `failed` code refetches
      all three, and a refetch that raises there is not caught, so the loop
      ends; a normal response adopts its `ts` (or keeps the old one) and
      routes its updates. */
  function Step(s: PollState, resp: Response, refetch: Option<Cursor>, allowedPeer: Option<int>): (r: (PollState, seq<Routed>))
    requires s.running
  {
    var c := s.cursor;
    match resp
    case TransportError => (PollState(refetch.GetOr(c), s.cycle, true), [])
    case Failed(code, ts) =>
      if code == 1 then (PollState(Cursor(c.server, c.key, ts.GetOr(c.ts)), s.cycle + 1, true), [])
      else if refetch.Some? then (PollState(refetch.value, s.cycle + 1, true), [])
      else (PollState(c, s.cycle + 1, false), [])
    case Updates(ts, updates) =>
      (PollState(Cursor(c.server, c.key, ts.GetOr(c.ts)), s.cycle + 1, true), RouteAll(updates, allowedPeer))
  }

  /** What each kind of response does to the cursor: only a refetch ever
      replaces the server and key; `failed == 1` and a normal response
      touch the token alone; only a normal response routes messages; only
      a failed refetch after a `failed` code other than 1 ends the loop. */
  lemma StepCursor(s: PollState, resp: Response, refetch: Option<Cursor>, allowedPeer: Option<int>)
    requires s.running
    ensures var (t, routed) := Step(s, resp, refetch, allowedPeer);
      && (resp.Updates? || (resp.Failed? && resp.code == 1) ==>
            t.cursor.server == s.cursor.server && t.cursor.key == s.cursor.key && t.cursor.ts == resp.ts.GetOr(s.cursor.ts))
      && (resp.TransportError? || (resp.Failed? && resp.code != 1) ==>
            t.cursor == refetch.GetOr(s.cursor) && routed == [])
      && (!t.running <==> resp.Failed? && resp.code != 1 && refetch.None?)
      && (resp.Updates? ==> routed == RouteAll(resp.updates, allowedPeer))
      && (!resp.Updates? ==> routed == [])
      && (t.cycle == if resp.TransportError? then s.cycle else s.cycle + 1)
  {
  }

  /** The loop over a finite prefix of its responses: the state reached and
      the messages routed, in order, stopping once the loop has ended. */
  function Run(s: PollState, resps: seq<Response>, refetches: seq<Option<Cursor>>, allowedPeer: Option<int>): (PollState, seq<Routed>)
    requires |refetches| == |resps|
    decreases |resps|
  {
    if resps == [] then (s, [])
    else
      var n := |resps| - 1;
      var (t, routed) := Run(s, resps[..n], refetches[..n], allowedPeer);
      if !t.running then (t, routed)
      else
        var (u, more) := Step(t, resps[n], refetches[n], allowedPeer);
        (u, routed + more)
  }

  /** Some refetch of the trace delivered this server and key. */
  predicate FromRefetch(c: Cursor, refetches: seq<Option<Cursor>>) {
    exists i :: 0 <= i < |refetches| && refetches[i].Some? && refetches[i].value.server == c.server && refetches[i].value.key == c.key
  }

  /** One iteration keeps the server and key or adopts the refetched cursor. */
  lemma StepKeys(t: PollState, resp: Response, refetch: Option<Cursor>, allowedPeer: Option<int>)
    requires t.running
    ensures var u := Step(t, resp, refetch, allowedPeer).0;
      (u.cursor.server == t.cursor.server && u.cursor.key == t.cursor.key) || refetch == Some(u.cursor)
  {
  }

  /** The server and key always come from the start or from a refetch that
      the loop was given: no response can inject them. */
  lemma {:induction false} RunKeyProvenance(s: PollState, resps: seq<Response>, refetches: seq<Option<Cursor>>, allowedPeer: Option<int>)
    requires |refetches| == |resps|
    ensures var t := Run(s, resps, refetches, allowedPeer).0;
      (t.cursor.server == s.cursor.server && t.cursor.key == s.cursor.key) || FromRefetch(t.cursor, refetches)
    decreases |resps|
  {
    if resps != [] {
      var n := |resps| - 1;
      RunKeyProvenance(s, resps[..n], refetches[..n], allowedPeer);
      var t := Run(s, resps[..n], refetches[..n], allowedPeer).0;
      if FromRefetch(t.cursor, refetches[..n]) {
        var i :| 0 <= i < n && refetches[..n][i].Some? && refetches[..n][i].value.server == t.cursor.server && refetches[..n][i].value.key == t.cursor.key;
        assert refetches[i] == refetches[..n][i];
        assert FromRefetch(t.cursor, refetches);
      }
      if t.running {
        var u := Step(t, resps[n], refetches[n], allowedPeer).0;
        StepKeys(t, resps[n], refetches[n], allowedPeer);
        if u.cursor.server != t.cursor.server || u.cursor.key != t.cursor.key {
          assert refetches[n] == Some(u.cursor);
          assert FromRefetch(u.cursor, refetches);
        }
        assert Run(s, resps, refetches, allowedPeer).0 == u;
      } else {
        assert Run(s, resps, refetches, allowedPeer).0 == t;
      }
    }
  }

  /** The loop's state as `longpoll_loop` keeps it in local variables. */
  class Poller {
    var server: string
    var key: string
    var ts: string
    var cycle: nat
    var running: bool
    const allowedPeer: Option<int>

    function State(): PollState
      reads this
    {
      PollState(Cursor(server, key, ts), cycle, running)
    }

    /** `server, key, ts = get_longpoll_server()` and `cycle = 0`. */
    constructor (start: Cursor, allowedPeer: Option<int>)
      ensures State() == PollState(start, 0, true) && this.allowedPeer == allowedPeer
    {
      server, key, ts := start.server, start.key, start.ts;
      cycle := 0;
      running := true;
      this.allowedPeer := allowedPeer;
    }

    /** One iteration of the loop body. */
    method Iterate(resp: Response, refetch: Option<Cursor>) returns (routed: seq<Routed>)
      requires running
      modifies this
      ensures (State(), routed) == Step(old(State()), resp, refetch, allowedPeer)
    {
      ghost var s0 := State();
      match resp {
        case TransportError =>
          if refetch.Some? {
            server, key, ts := refetch.value.server, refetch.value.key, refetch.value.ts;
          }
          assert State().cursor == refetch.GetOr(s0.cursor);
          return [];
        case Failed(code, newTs) =>
          cycle := cycle + 1;
          if code == 1 {
            ts := newTs.GetOr(ts);
          } else if refetch.Some? {
            server, key, ts := refetch.value.server, refetch.value.key, refetch.value.ts;
          } else {
            running := false;
          }
          return [];
        case Updates(newTs, updates) =>
          cycle := cycle + 1;
          ts := newTs.GetOr(ts);
          routed := DispatchUpdates(updates, allowedPeer);
      }
    }

    /** The loop over the responses it receives, until they run out or the
        loop ends. */
    method Loop(resps: seq<Response>, refetches: seq<Option<Cursor>>) returns (routed: seq<Routed>)
      requires |refetches| == |resps|
      modifies this
      ensures (State(), routed) == Run(old(State()), resps, refetches, allowedPeer)
    {
      routed := [];
      var i := 0;
      if !running {
        RunStopped(State(), resps, refetches, allowedPeer, 0);
      }
      while i < |resps| && running
        invariant 0 <= i <= |resps|
        invariant (State(), routed) == Run(old(State()), resps[..i], refetches[..i], allowedPeer)
        invariant !running ==> (State(), routed) == Run(old(State()), resps, refetches, allowedPeer)
      {
        RunStep(old(State()), resps, refetches, allowedPeer, i);
        var more := Iterate(resps[i], refetches[i]);
        routed := routed + more;
        i := i + 1;
        if !running {
          RunStopped(old(State()), resps, refetches, allowedPeer, i);
        }
      }
      if i == |resps| {
        assert resps[..i] == resps && refetches[..i] == refetches;
      }
    }
  }

  /** While the loop runs, one more response is one more `Step`. */
  lemma RunStep(s: PollState, resps: seq<Response>, refetches: seq<Option<Cursor>>, allowedPeer: Option<int>, i: nat)
    requires |refetches| == |resps| && i < |resps|
    requires Run(s, resps[..i], refetches[..i], allowedPeer).0.running
    ensures var (t, routed) := Run(s, resps[..i], refetches[..i], allowedPeer);
      var (u, more) := Step(t, resps[i], refetches[i], allowedPeer);
      Run(s, resps[..i + 1], refetches[..i + 1], allowedPeer) == (u, routed + more)
  {
    assert resps[..i + 1][..i] == resps[..i] && refetches[..i + 1][..i] == refetches[..i];
  }

  /** Once the loop has ended, later responses change nothing. */
  lemma {:induction false} RunStopped(s: PollState, resps: seq<Response>, refetches: seq<Option<Cursor>>, allowedPeer: Option<int>, i: nat)
    requires |refetches| == |resps| && i <= |resps|
    requires !Run(s, resps[..i], refetches[..i], allowedPeer).0.running
    ensures Run(s, resps, refetches, allowedPeer) == Run(s, resps[..i], refetches[..i], allowedPeer)
    decreases |resps| - i
  {
    if i < |resps| {
      RunStopped(s, resps[..|resps| - 1], refetches[..|resps| - 1], allowedPeer, i) by {
        assert resps[..|resps| - 1][..i] == resps[..i];
        assert refetches[..|resps| - 1][..i] == refetches[..i];
      }
      assert resps[..|resps| - 1][..i] == resps[..i];
      assert refetches[..|resps| - 1][..i] == refetches[..i];
    } else {
      assert resps[..i] == resps && refetches[..i] == refetches;
    }
  }

  /** `for upd in updates:` with its filters and routing. */
  method DispatchUpdates(updates: seq<Update>, allowedPeer: Option<int>) returns (routed: seq<Routed>)
    ensures routed == RouteAll(updates, allowedPeer)
  {
    routed := [];
    for i := 0 to |updates|
      invariant routed == RouteAll(updates[..i], allowedPeer)
    {
      assert updates[..i + 1][..i] == updates[..i];
      var upd := updates[i];
      if upd.kind != "message_new" {
        continue;
      }
      var text := Strip(upd.text.GetOr(""));
      if text == "" {
        continue;
      }
      if upd.fromId.None? || upd.peerId.None? {
        continue;
      }
      if allowedPeer.Some? && upd.peerId.value != allowedPeer.value {
        continue;
      }
      var cmd := Classify(upd.payloadCmd, text);
      if cmd == Ignore {
        continue;
      }
      routed := routed + [Routed(cmd, upd.fromId.value, upd.peerId.value)];
    }
    assert updates[..|updates|] == updates;
  }
}

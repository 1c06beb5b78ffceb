/**
  usb-bridge (cmd/benchpod-cli/usbbridge_watch.go): it lends a pod on a USB network link this computer's
  proxy, round after round as pods come and go, and takes it back when it stops.
*/
module BridgeWatch {
  import opened Outcomes

  type Pod = string

  datatype Link = Link(host: string, pod: Pod)

  /** A cloud proxy setting; a pod without one is not in the map of settings. */
  datatype Proxy = Proxy(host: string, port: int)

  type Settings = map<Pod, Proxy>

  /**
    pickUSBLink: the only pod there is, or the first that answers with the wanted name. ids: the names of the pods
    that answer.
  */
  function Pick(links: seq<Link>, name: string, ids: map<Pod, string>): Option<Link> {
    if name == "" then (if |links| == 1 then Some(links[0]) else None)
    else FirstNamed(links, name, ids)
  }

  predicate Named(l: Link, name: string, ids: map<Pod, string>) {
    l.pod in ids && ids[l.pod] == name
  }

  function FirstNamed(links: seq<Link>, name: string, ids: map<Pod, string>): Option<Link> {
    if links == [] then None
    else if Named(links[0], name, ids) then Some(links[0])
    else FirstNamed(links[1..], name, ids)
  }

  /** A named pod is picked exactly when one of the links leads to it. */
  lemma {:induction false} PickFinds(links: seq<Link>, name: string, ids: map<Pod, string>)
    requires name != ""
    ensures Pick(links, name, ids).Some? <==> exists i | 0 <= i < |links| :: Named(links[i], name, ids)
    ensures Pick(links, name, ids).Some? ==>
              Pick(links, name, ids).value in links && Named(Pick(links, name, ids).value, name, ids)
  {
    if links != [] && !Named(links[0], name, ids) {
      PickFinds(links[1..], name, ids);
      forall i | 0 <= i < |links| && Named(links[i], name, ids) ensures Named(links[1..][i - 1], name, ids) {}
      forall i | 0 <= i < |links| - 1 && Named(links[1..][i], name, ids) ensures Named(links[i + 1], name, ids) {}
    }
  }

  /** Without a name only a single link is taken, and with one the first that leads to it. */
  lemma {:induction false} PickIff(links: seq<Link>, name: string, ids: map<Pod, string>, l: Link)
    ensures name == "" ==> (Pick(links, name, ids) == Some(l) <==> links == [l])
    ensures name != "" ==>
              (Pick(links, name, ids) == Some(l) <==>
                 exists i :: 0 <= i < |links| && links[i] == l && FirstSuch(links, name, ids, i))
  {
    if name != "" && links != [] {
      if Named(links[0], name, ids) {
        assert FirstSuch(links, name, ids, 0);
      } else {
        PickIff(links[1..], name, ids, l);
        forall i | 0 <= i < |links| && FirstSuch(links, name, ids, i) ensures FirstSuch(links[1..], name, ids, i - 1) {
          assert forall j | 0 <= j < i - 1 :: links[1..][j] == links[j + 1];
        }
        forall i | 0 <= i < |links| - 1 && FirstSuch(links[1..], name, ids, i)
          ensures FirstSuch(links, name, ids, i + 1)
        {
          assert forall j | 1 <= j < i + 1 :: links[j] == links[1..][j - 1];
        }
      }
    }
  }

  predicate FirstSuch(links: seq<Link>, name: string, ids: map<Pod, string>, i: int) {
    && 0 <= i < |links| && links[i].pod in ids && ids[links[i].pod] == name
    && forall j | 0 <= j < i :: !(links[j].pod in ids && ids[links[j].pod] == name)
  }

  // ── one round ──

  datatype SetFate = SetDone | SetRefused | SetLost   // lost: it took effect, but its reply did not arrive

  /**
    What one round meets. answers: the pod answered the query of its proxy; garbled: its answer does not decode,
    which the code takes for no proxy. ends: serveBridge stopped because the caller did; cancelled: the caller
    stopped during the wait.
  */
  datatype Round = Round(links: seq<Link>, ids: map<Pod, string>, answers: bool, garbled: bool, listens: bool,
                         setFate: SetFate, ends: bool, cancelled: bool)

  datatype Why = NoLink | NotPicked | NoAnswer | OtherProxy(proxy: Proxy) | CannotListen | SetFailed | LinkGone

  /** A set request that took effect on a pod. */
  datatype SetEvent = SetEvent(pod: Pod, proxy: Proxy, lost: bool)

  /** setByUs, setOn: what this run knows it set. history: the set requests that took effect, known or not. */
  datatype State = State(settings: Settings, setOn: Option<Pod>, setByUs: Option<Proxy>, history: seq<SetEvent>,
                         stopped: bool, why: Option<Why>)

  function Start(settings: Settings): State {
    State(settings, None, None, [], false, None)
  }

  /** Whether the round gets as far as the pod's current setting. */
  predicate Reaches(r: Round, name: string) {
    r.links != [] && Pick(r.links, name, r.ids).Some? && r.answers
  }

  /** The proxy the code sees on a pod. */
  function Seen(s: State, r: Round, pod: Pod): Option<Proxy> {
    if pod in s.settings && !r.garbled then Some(s.settings[pod]) else None
  }

  /** Whether the round asks the pod to take the proxy: it seems to have none, and the listener is up. */
  predicate Sets(s: State, r: Round, name: string) {
    Reaches(r, name) && Seen(s, r, Pick(r.links, name, r.ids).value.pod).None? && r.listens
  }

  /** Why the round does not get to serve, if it does not. */
  function Obstacle(s: State, r: Round, name: string, port: int): Option<Why> {
    if r.links == [] then Some(NoLink)
    else if Pick(r.links, name, r.ids).None? then Some(NotPicked)
    else if !r.answers then Some(NoAnswer)
    else
      var l := Pick(r.links, name, r.ids).value;
      var cur := Seen(s, r, l.pod);
      if cur.Some? && cur.value != Proxy(l.host, port) then Some(OtherProxy(cur.value))
      else if !r.listens then Some(CannotListen)
      else if cur.None? && !r.setFate.SetDone? then Some(SetFailed)
      else None
  }

  /** What the round's set request does, if it makes one. */
  function Lent(s: State, r: Round, name: string, port: int): State
    requires Sets(s, r, name)
  {
    var l := Pick(r.links, name, r.ids).value;
    var proxy := Proxy(l.host, port);
    match r.setFate
    case SetRefused => s
    case SetDone =>
      s.(settings := s.settings[l.pod := proxy], setOn := Some(l.pod), setByUs := Some(proxy),
         history := s.history + [SetEvent(l.pod, proxy, false)])
    case SetLost =>
      s.(settings := s.settings[l.pod := proxy], history := s.history + [SetEvent(l.pod, proxy, true)])
  }

  /** Whether the bridge stops after the round, and with what reason: once is a bridge without --watch. */
  function Stopping(why: Option<Why>, r: Round, once: bool): (bool, Option<Why>) {
    match why
    case Some(w) => if once then (true, Some(w)) else (r.cancelled, None)
    case None => if r.ends then (true, None) else if once then (true, Some(LinkGone)) else (false, None)
  }

  function After(s: State, r: Round, name: string, port: int, once: bool): State {
    if s.stopped then s
    else
      var why := Obstacle(s, r, name, port);
      var t := if Sets(s, r, name) then Lent(s, r, name, port) else s;
      var stop := Stopping(why, r, once);
      t.(stopped := stop.0, why := stop.1)
  }

  function Run(s: State, rounds: seq<Round>, name: string, port: int, once: bool): State {
    if rounds == [] then s
    else After(Run(s, rounds[..|rounds| - 1], name, port, once), rounds[|rounds| - 1], name, port, once)
  }

  datatype ClearFate = ClearDone | ClearRefused | ClearLost

  datatype Exit = Clean | Stopped(why: Why) | ClearFailed

  /** The end of watchBridge: it clears what it knows it set, unless told to keep it. */
  function FinalSettings(s: State, keep: bool, fate: ClearFate): Settings {
    if s.setByUs.None? || s.setOn.None? || keep || fate.ClearRefused? then s.settings else s.settings - {s.setOn.value}
  }

  function ExitOf(s: State, keep: bool, fate: ClearFate): Exit {
    if s.setByUs.Some? && !keep && !fate.ClearDone? then ClearFailed
    else if s.why.Some? then Stopped(s.why.value)
    else Clean
  }

  // ── what decides a round, and the end ──

  /**
    A round gets to serve exactly when a pod is picked and answers, the listener is up, and the pod takes the proxy or
    seems to have it.
  */
  lemma ServesIff(s: State, r: Round, name: string, port: int)
    ensures Obstacle(s, r, name, port).None? <==>
              && r.links != [] && Pick(r.links, name, r.ids).Some? && r.answers && r.listens
              && var l := Pick(r.links, name, r.ids).value;
                 if l.pod in s.settings && !r.garbled then s.settings[l.pod] == Proxy(l.host, port)
                 else r.setFate.SetDone?
  {
  }

  /** It stops short of another proxy exactly when the picked pod's answer shows one. */
  lemma OtherProxyIff(s: State, r: Round, name: string, port: int, other: Proxy)
    ensures Obstacle(s, r, name, port) == Some(OtherProxy(other)) <==>
              && r.links != [] && Pick(r.links, name, r.ids).Some? && r.answers && !r.garbled
              && var l := Pick(r.links, name, r.ids).value;
                 l.pod in s.settings && s.settings[l.pod] == other != Proxy(l.host, port)
  {
  }

  /** The other reasons a round stops short, in the order they are met. */
  lemma ObstacleIff(s: State, r: Round, name: string, port: int)
    ensures var why, picked := Obstacle(s, r, name, port), Pick(r.links, name, r.ids);
            && (why == Some(NoLink) <==> r.links == [])
            && (why == Some(NotPicked) <==> r.links != [] && picked.None?)
            && (why == Some(NoAnswer) <==> r.links != [] && picked.Some? && !r.answers)
            && (why == Some(CannotListen) <==>
                  && r.links != [] && picked.Some? && r.answers && !r.listens
                  && (picked.value.pod in s.settings && !r.garbled ==>
                        s.settings[picked.value.pod] == Proxy(picked.value.host, port)))
            && (why == Some(SetFailed) <==>
                  && r.links != [] && picked.Some? && r.answers && r.listens && !r.setFate.SetDone?
                  && (picked.value.pod !in s.settings || r.garbled))
            && why != Some(LinkGone)
  {
  }

  /**
    What a round does: it sets the proxy on the picked pod exactly when that answers as having none, the listener is
    up and the pod does not refuse; the run knows of it exactly when the reply arrives.
  */
  lemma RoundIff(s: State, r: Round, name: string, port: int, once: bool)
    requires !s.stopped
    ensures var t, picked := After(s, r, name, port, once), Pick(r.links, name, r.ids);
            if r.links != [] && picked.Some? && r.answers && r.listens && !r.setFate.SetRefused?
               && (picked.value.pod !in s.settings || r.garbled) then
              var proxy := Proxy(picked.value.host, port);
              && t.settings == s.settings[picked.value.pod := proxy]
              && t.history == s.history + [SetEvent(picked.value.pod, proxy, r.setFate.SetLost?)]
              && t.setOn == (if r.setFate.SetDone? then Some(picked.value.pod) else s.setOn)
              && t.setByUs == (if r.setFate.SetDone? then Some(proxy) else s.setByUs)
            else t.settings == s.settings && t.history == s.history && t.setOn == s.setOn && t.setByUs == s.setByUs
  {
  }

  /** The bridge stops in the round at which it served and was told to, or could not serve and was given up. */
  predicate StopsAt(was: Settings, rounds: seq<Round>, name: string, port: int, i: nat)
    requires i < |rounds|
  {
    if Obstacle(Run(Start(was), rounds[..i], name, port, false), rounds[i], name, port).None? then rounds[i].ends
    else rounds[i].cancelled
  }

  /** With --watch it goes on until then, and gives no reason of its own. */
  lemma {:induction false} WatchStopsIff(was: Settings, rounds: seq<Round>, name: string, port: int)
    ensures var s := Run(Start(was), rounds, name, port, false);
            && (s.stopped <==> exists i :: 0 <= i < |rounds| && StopsAt(was, rounds, name, port, i))
            && s.why.None?
  {
    if rounds != [] {
      var front, n := rounds[..|rounds| - 1], |rounds| - 1;
      WatchStopsIff(was, front, name, port);
      forall i | 0 <= i < n ensures StopsAt(was, rounds, name, port, i) <==> StopsAt(was, front, name, port, i) {
        assert front[..i] == rounds[..i];
      }
      if Run(Start(was), front, name, port, false).stopped {
        var i :| 0 <= i < |front| && StopsAt(was, front, name, port, i);
        assert StopsAt(was, rounds, name, port, i);
      } else if StopsAt(was, rounds, name, port, n) {
        assert Run(Start(was), rounds, name, port, false).stopped;
      }
    }
  }

  /** Without --watch it stops with the first round's obstacle, or because the link went away. */
  lemma OnceStopsWith(was: Settings, r: Round, name: string, port: int, why: Why)
    ensures Run(Start(was), [r], name, port, true).why == Some(why) <==>
              Obstacle(Start(was), r, name, port) == Some(why)
              || (Obstacle(Start(was), r, name, port).None? && !r.ends && why == LinkGone)
  {
    assert [r][..0] == [];
  }

  /** The exit: a clear that is owed and not answered well, else the reason the bridge stopped, else nothing. */
  lemma ExitIff(was: Settings, rounds: seq<Round>, name: string, port: int, once: bool, keep: bool, fate: ClearFate)
    ensures var s := Run(Start(was), rounds, name, port, once);
            var exit := ExitOf(s, keep, fate);
            && (exit == ClearFailed <==>
                  !keep && fate != ClearDone && exists i | 0 <= i < |s.history| :: !s.history[i].lost)
            && (forall why :: exit == Stopped(why) <==> exit != ClearFailed && s.why == Some(why))
  {
    RemembersAlways(was, rounds, name, port, once);
  }

  lemma {:induction false} RemembersAlways(was: Settings, rounds: seq<Round>, name: string, port: int, once: bool)
    ensures Remembers(Run(Start(was), rounds, name, port, once))
  {
    if rounds != [] {
      var front, r := rounds[..|rounds| - 1], rounds[|rounds| - 1];
      RemembersAlways(was, front, name, port, once);
      var s := Run(Start(was), front, name, port, once);
      if !s.stopped && Sets(s, r, name) {
        LentRemembers(s, r, name, port);
      }
    }
  }

  // ── every run ──

  predicate InHistory(h: seq<SetEvent>, p: Pod) {
    exists i | 0 <= i < |h| :: h[i].pod == p
  }

  /** A set request that took effect met a pod without a setting, and its proxy is still there. */
  predicate Stands(was: Settings, now: Settings, e: SetEvent) {
    e.pod !in was && e.pod in now && now[e.pod] == e.proxy
  }

  /** The set requests that took effect account for every change. */
  predicate Accounts(was: Settings, now: Settings, h: seq<SetEvent>) {
    && (forall p | p in now :: (p in was && now[p] == was[p]) || InHistory(h, p))
    && (forall p | p in was :: p in now && now[p] == was[p])
    && (forall i | 0 <= i < |h| :: Stands(was, now, h[i]))
    && (forall i, j | 0 <= i < j < |h| :: h[i].pod != h[j].pod)
  }

  /** What the run knows it set is the last set request that was answered. */
  predicate Remembers(s: State) {
    && (s.setOn.Some? <==> s.setByUs.Some?)
    && (s.setOn.None? ==> forall i | 0 <= i < |s.history| :: s.history[i].lost)
    && (s.setOn.Some? ==>
          exists i | 0 <= i < |s.history| :: s.history[i] == SetEvent(s.setOn.value, s.setByUs.value, false))
  }

  lemma OneMore(was: Settings, now: Settings, h: seq<SetEvent>, e: SetEvent)
    requires Accounts(was, now, h) && e.pod !in now
    ensures Accounts(was, now[e.pod := e.proxy], h + [e])
  {
    var later, more := now[e.pod := e.proxy], h + [e];
    forall p | p in later && !(p in was && later[p] == was[p]) ensures InHistory(more, p) {
      if p == e.pod {
        assert more[|h|].pod == p;
      } else {
        var i :| 0 <= i < |h| && h[i].pod == p;
        assert more[i].pod == p;
      }
    }
    forall i | 0 <= i < |h| ensures h[i].pod != e.pod && Stands(was, later, h[i]) {
      assert Stands(was, now, h[i]);
    }
  }

  lemma LentAccounts(was: Settings, s: State, r: Round, name: string, port: int)
    requires Accounts(was, s.settings, s.history) && Sets(s, r, name) && !r.garbled
    ensures Accounts(was, Lent(s, r, name, port).settings, Lent(s, r, name, port).history)
  {
    var l := Pick(r.links, name, r.ids).value;
    OneMore(was, s.settings, s.history, SetEvent(l.pod, Proxy(l.host, port), r.setFate.SetLost?));
  }

  lemma LentRemembers(s: State, r: Round, name: string, port: int)
    requires Remembers(s) && Sets(s, r, name)
    ensures Remembers(Lent(s, r, name, port))
  {
    var t := Lent(s, r, name, port);
    var n := |s.history|;
    if r.setFate.SetDone? {
      assert t.history[n] == SetEvent(t.setOn.value, t.setByUs.value, false);
    } else if s.setOn.Some? {
      var i :| 0 <= i < n && s.history[i] == SetEvent(s.setOn.value, s.setByUs.value, false);
      assert t.history[i] == s.history[i];
    }
  }

  /** Every answer of a pod decodes. */
  predicate NoneGarbled(rounds: seq<Round>) {
    forall i | 0 <= i < |rounds| :: !rounds[i].garbled
  }

  /**
    A round changes a setting that is there exactly when the pod's answer did not decode, the listener was
    up, and the set request took effect with another proxy.
  */
  lemma OverwritesIff(s: State, r: Round, name: string, port: int, once: bool, p: Pod)
    requires !s.stopped && p in s.settings
    ensures var now := After(s, r, name, port, once).settings;
            !(p in now && now[p] == s.settings[p]) <==>
              && Reaches(r, name) && Pick(r.links, name, r.ids).value.pod == p && r.garbled && r.listens
              && !r.setFate.SetRefused? && s.settings[p] != Proxy(Pick(r.links, name, r.ids).value.host, port)
  {
  }

  lemma {:induction false} Always(was: Settings, rounds: seq<Round>, name: string, port: int, once: bool)
    requires NoneGarbled(rounds)
    ensures var s := Run(Start(was), rounds, name, port, once); Accounts(was, s.settings, s.history) && Remembers(s)
  {
    if rounds != [] {
      var front, r := rounds[..|rounds| - 1], rounds[|rounds| - 1];
      Always(was, front, name, port, once);
      var s := Run(Start(was), front, name, port, once);
      if !s.stopped && Sets(s, r, name) {
        LentAccounts(was, s, r, name, port);
        LentRemembers(s, r, name, port);
      }
    }
  }

  /**
    When the pods' answers decode, a setting that was there at the start is there at the end, whatever else happens
    and however the bridge ends.
  */
  lemma NeverOverwrites(was: Settings, rounds: seq<Round>, name: string, port: int, once: bool, keep: bool,
                        fate: ClearFate, p: Pod)
    requires NoneGarbled(rounds) && p in was
    ensures var end := FinalSettings(Run(Start(was), rounds, name, port, once), keep, fate);
            p in end && end[p] == was[p]
  {
    Always(was, rounds, name, port, once);
  }

  predicate SameAt(a: Settings, b: Settings, p: Pod) {
    (p in a <==> p in b) && (p in a ==> a[p] == b[p])
  }

  /** The last set request that took effect on a pod. */
  function LastOn(h: seq<SetEvent>, p: Pod): Option<SetEvent> {
    if h == [] then None
    else if h[|h| - 1].pod == p then Some(h[|h| - 1])
    else LastOn(h[..|h| - 1], p)
  }

  /** A pod has what the last set request on it left there, and what it had at the start if there was none. */
  predicate Follows(was: Settings, now: Settings, h: seq<SetEvent>, p: Pod) {
    match LastOn(h, p)
    case None => SameAt(now, was, p)
    case Some(e) => p in now && now[p] == e.proxy
  }

  lemma FollowsOneMore(was: Settings, now: Settings, h: seq<SetEvent>, e: SetEvent, p: Pod)
    requires Follows(was, now, h, p)
    ensures Follows(was, now[e.pod := e.proxy], h + [e], p)
  {
    assert (h + [e])[..|h|] == h;
  }

  lemma LentFollows(was: Settings, s: State, r: Round, name: string, port: int, p: Pod)
    requires Follows(was, s.settings, s.history, p) && Sets(s, r, name)
    ensures Follows(was, Lent(s, r, name, port).settings, Lent(s, r, name, port).history, p)
  {
    var l := Pick(r.links, name, r.ids).value;
    FollowsOneMore(was, s.settings, s.history, SetEvent(l.pod, Proxy(l.host, port), r.setFate.SetLost?), p);
  }

  lemma {:induction false} FollowsAlways(was: Settings, rounds: seq<Round>, name: string, port: int, once: bool, p: Pod)
    ensures var s := Run(Start(was), rounds, name, port, once);
            Follows(was, s.settings, s.history, p) && (s.setOn.Some? <==> s.setByUs.Some?)
  {
    if rounds != [] {
      var front, r := rounds[..|rounds| - 1], rounds[|rounds| - 1];
      FollowsAlways(was, front, name, port, once, p);
      var s := Run(Start(was), front, name, port, once);
      if !s.stopped && Sets(s, r, name) {
        LentFollows(was, s, r, name, port, p);
      }
    }
  }

  lemma SameEverywhere(a: Settings, b: Settings)
    requires forall p :: SameAt(a, b, p)
    ensures a == b
  {
    forall p ensures p in a <==> p in b {
      assert SameAt(a, b, p);
    }
    forall p | p in a ensures a[p] == b[p] {
      assert SameAt(a, b, p);
    }
    assert a.Keys == b.Keys;
  }

  /** The bridge clears the last pod it knows it set, and the clear takes effect. */
  predicate Clears(s: State, keep: bool, fate: ClearFate) {
    s.setOn.Some? && !keep && !fate.ClearRefused?
  }

  /** What puts a pod back: it is cleared and had nothing, or nothing was set on it, or last what it had. */
  predicate Restores(was: Settings, s: State, keep: bool, fate: ClearFate, p: Pod) {
    if Clears(s, keep, fate) && s.setOn == Some(p) then p !in was
    else
      match LastOn(s.history, p)
      case None => true
      case Some(e) => p in was && was[p] == e.proxy
  }

  /**
    Every run, whatever the pods' answers, the fates of the requests, and how the bridge is told to end: when a pod's
    setting is at the end what it was at the start.
  */
  lemma RestoredIff(was: Settings, rounds: seq<Round>, name: string, port: int, once: bool, keep: bool,
                    fate: ClearFate, p: Pod)
    ensures var s := Run(Start(was), rounds, name, port, once);
            SameAt(FinalSettings(s, keep, fate), was, p) <==> Restores(was, s, keep, fate, p)
  {
    FollowsAlways(was, rounds, name, port, once, p);
  }

  predicate LostOn(s: State, p: Pod) {
    exists i | 0 <= i < |s.history| :: s.history[i].pod == p && s.history[i].lost
  }

  predicate SetKnown(s: State, p: Pod) {
    exists i | 0 <= i < |s.history| :: s.history[i].pod == p && !s.history[i].lost
  }

  /**
    When the pods' answers decode, without --keep-proxy and unless a failed clear is reported: exactly when no
    set request on the pod took effect with its reply lost, and it is the last pod the bridge set, if the bridge
    set it.
  */
  lemma RestoredWhenDecoded(was: Settings, rounds: seq<Round>, name: string, port: int, once: bool, fate: ClearFate,
                            p: Pod)
    requires NoneGarbled(rounds) && !ExitOf(Run(Start(was), rounds, name, port, once), false, fate).ClearFailed?
    ensures var s := Run(Start(was), rounds, name, port, once);
            SameAt(FinalSettings(s, false, fate), was, p) <==> !LostOn(s, p) && (SetKnown(s, p) ==> s.setOn == Some(p))
  {
    Always(was, rounds, name, port, once);
    RestoredOf(was, Run(Start(was), rounds, name, port, once), fate, p);
  }

  lemma RestoredOf(was: Settings, s: State, fate: ClearFate, p: Pod)
    requires Accounts(was, s.settings, s.history) && Remembers(s) && !ExitOf(s, false, fate).ClearFailed?
    ensures SameAt(FinalSettings(s, false, fate), was, p) <==> !LostOn(s, p) && (SetKnown(s, p) ==> s.setOn == Some(p))
  {
    if InHistory(s.history, p) {
      var i :| 0 <= i < |s.history| && s.history[i].pod == p;
      assert Stands(was, s.settings, s.history[i]);
    }
  }

  /** All links lead to one pod. */
  predicate OnePod(rounds: seq<Round>, p: Pod) {
    forall i, j | 0 <= i < |rounds| && 0 <= j < |rounds[i].links| :: rounds[i].links[j].pod == p
  }

  lemma {:induction false} PickedIsOnePod(links: seq<Link>, name: string, ids: map<Pod, string>, p: Pod)
    requires forall j | 0 <= j < |links| :: links[j].pod == p
    ensures Pick(links, name, ids).Some? ==> Pick(links, name, ids).value.pod == p
  {
    if name != "" && links != [] && !Named(links[0], name, ids) {
      PickedIsOnePod(links[1..], name, ids, p);
    }
  }

  lemma {:induction false} OnePodHistory(was: Settings, rounds: seq<Round>, name: string, port: int, once: bool, p: Pod)
    requires OnePod(rounds, p)
    ensures forall i | 0 <= i < |Run(Start(was), rounds, name, port, once).history| ::
              Run(Start(was), rounds, name, port, once).history[i].pod == p
  {
    if rounds != [] {
      var front, r := rounds[..|rounds| - 1], rounds[|rounds| - 1];
      assert OnePod(front, p) by {
        forall i, j | 0 <= i < |front| && 0 <= j < |front[i].links| ensures front[i].links[j].pod == p {
          assert front[i] == rounds[i];
        }
      }
      OnePodHistory(was, front, name, port, once, p);
      PickedIsOnePod(r.links, name, r.ids, p);
    }
  }

  lemma LastOnNone(h: seq<SetEvent>, p: Pod)
    requires forall i | 0 <= i < |h| :: h[i].pod != p
    ensures LastOn(h, p).None?
  {
  }

  /**
    With one pod, across any number of unplugs and replugs and whatever it answers: every setting is as at the start
    exactly when that pod's is put back.
  */
  lemma OnePodRestoredIff(was: Settings, rounds: seq<Round>, name: string, port: int, once: bool, keep: bool,
                          fate: ClearFate, p: Pod)
    requires OnePod(rounds, p)
    ensures var s := Run(Start(was), rounds, name, port, once);
            FinalSettings(s, keep, fate) == was <==> Restores(was, s, keep, fate, p)
  {
    var s := Run(Start(was), rounds, name, port, once);
    var end := FinalSettings(s, keep, fate);
    OnePodHistory(was, rounds, name, port, once, p);
    OnePodSetOn(was, rounds, name, port, once, p);
    RestoredIff(was, rounds, name, port, once, keep, fate, p);
    if Restores(was, s, keep, fate, p) {
      forall q ensures SameAt(end, was, q) {
        if q != p {
          LastOnNone(s.history, q);
          RestoredIff(was, rounds, name, port, once, keep, fate, q);
        }
      }
      SameEverywhere(end, was);
    }
  }

  lemma {:induction false} OnePodSetOn(was: Settings, rounds: seq<Round>, name: string, port: int, once: bool, p: Pod)
    requires OnePod(rounds, p)
    ensures Run(Start(was), rounds, name, port, once).setOn in {None, Some(p)}
  {
    if rounds != [] {
      var front, r := rounds[..|rounds| - 1], rounds[|rounds| - 1];
      assert OnePod(front, p) by {
        forall i, j | 0 <= i < |front| && 0 <= j < |front[i].links| ensures front[i].links[j].pod == p {
          assert front[i] == rounds[i];
        }
      }
      OnePodSetOn(was, front, name, port, once, p);
      PickedIsOnePod(r.links, name, r.ids, p);
    }
  }

  predicate NothingLost(s: State) {
    forall i | 0 <= i < |s.history| :: !s.history[i].lost
  }

  /**
    ... and when its answers decode, without --keep-proxy and unless a failed clear is reported, exactly when no set
    request's reply was lost.
  */
  lemma OnePodWhenDecoded(was: Settings, rounds: seq<Round>, name: string, port: int, once: bool, fate: ClearFate,
                          p: Pod)
    requires NoneGarbled(rounds) && OnePod(rounds, p)
    requires !ExitOf(Run(Start(was), rounds, name, port, once), false, fate).ClearFailed?
    ensures var s := Run(Start(was), rounds, name, port, once);
            FinalSettings(s, false, fate) == was <==> NothingLost(s)
  {
    var s := Run(Start(was), rounds, name, port, once);
    OnePodHistory(was, rounds, name, port, once, p);
    Always(was, rounds, name, port, once);
    var end := FinalSettings(s, false, fate);
    if NothingLost(s) {
      forall q ensures SameAt(end, was, q) {
        RestoredWhenDecoded(was, rounds, name, port, once, fate, q);
      }
      SameEverywhere(end, was);
    } else {
      RestoredWhenDecoded(was, rounds, name, port, once, fate, p);
      assert !SameAt(end, was, p);
    }
  }

  /**
    One round in which the pod's answer does not decode: its own proxy is overwritten, then cleared, and the bridge
    reports nothing.
  */
  lemma GarbledAnswerLosesTheProxy(l: Link, port: int, own: Proxy)
    ensures var r := Round([l], map[], true, true, true, SetDone, true, false);
            var s := Run(Start(map[l.pod := own]), [r], "", port, false);
            ExitOf(s, false, ClearDone) == Clean && FinalSettings(s, false, ClearDone) == map[]
  {
    var r := Round([l], map[], true, true, true, SetDone, true, false);
    var s0 := Start(map[l.pod := own]);
    assert [r][..0] == [];
    assert Run(s0, [r], "", port, false) == After(Run(s0, [], "", port, false), r, "", port, false);
    assert Sets(s0, r, "");
    assert s0.settings[l.pod := Proxy(l.host, port)] - {l.pod} == map[];
  }

  /**
    One pod, and the reply to the set request is lost: the next round finds the proxy there, takes it for its
    own, serves, and leaves it behind, with nothing reported.
  */
  lemma LostReplyKeepsTheProxy(l: Link, port: int)
    ensures var lost := Round([l], map[], true, false, true, SetLost, false, false);
            var serves := Round([l], map[], true, false, true, SetDone, true, false);
            var s := Run(Start(map[]), [lost, serves], "", port, false);
            && ExitOf(s, false, ClearDone) == Clean
            && FinalSettings(s, false, ClearDone) == map[l.pod := Proxy(l.host, port)]
  {
    var lost := Round([l], map[], true, false, true, SetLost, false, false);
    var serves := Round([l], map[], true, false, true, SetDone, true, false);
    var s0 := Start(map[]);
    assert [lost, serves][..1] == [lost] && [lost][..0] == [];
    assert Run(s0, [lost], "", port, false) == After(Run(s0, [], "", port, false), lost, "", port, false);
    var s1 := After(s0, lost, "", port, false);
    assert Sets(s0, lost, "") && s1.settings == map[][l.pod := Proxy(l.host, port)];
    assert !Sets(s1, serves, "") && Obstacle(s1, serves, "", port) == None;
  }

  /** Two pods in turn: the first keeps the bridge's proxy although nothing failed. */
  lemma SecondPodForgetsTheFirst()
    ensures var a, b := Link("10.237.0.2", "10.237.0.1"), Link("10.237.0.6", "10.237.0.5");
            var rounds := [Round([a], map[], true, false, true, SetDone, false, false),
                           Round([b], map[], true, false, true, SetDone, true, false)];
            var s := Run(Start(map[]), rounds, "", 39128, false);
            && ExitOf(s, false, ClearDone) == Clean
            && FinalSettings(s, false, ClearDone) == map[a.pod := Proxy(a.host, 39128)]
  {
    var a, b := Link("10.237.0.2", "10.237.0.1"), Link("10.237.0.6", "10.237.0.5");
    var r1 := Round([a], map[], true, false, true, SetDone, false, false);
    var r2 := Round([b], map[], true, false, true, SetDone, true, false);
    var s0 := Start(map[]);
    assert a.pod != b.pod by {
      assert a.pod[9] != b.pod[9];
    }
    assert [r1, r2][..1] == [r1] && [r1][..0] == [];
    assert Run(s0, [r1], "", 39128, false) == After(Run(s0, [], "", 39128, false), r1, "", 39128, false);
    var s1 := After(s0, r1, "", 39128, false);
    assert Sets(s0, r1, "") && s1.settings == map[][a.pod := Proxy(a.host, 39128)];
    var s2 := After(s1, r2, "", 39128, false);
    assert Sets(s1, r2, "") && s2.settings == s1.settings[b.pod := Proxy(b.host, 39128)];
    assert s2.settings - {b.pod} == map[a.pod := Proxy(a.host, 39128)];
  }

  /** Without --watch the first round decides: later ones change nothing. */
  lemma {:induction false} OnceIsOneRound(s: State, rounds: seq<Round>, name: string, port: int)
    requires rounds != []
    ensures var end := Run(s, rounds, name, port, true); end.stopped && end == After(s, rounds[0], name, port, true)
  {
    var front := rounds[..|rounds| - 1];
    if front != [] {
      OnceIsOneRound(s, front, name, port);
    }
  }

  // ── the code ──

  method PickUsbLink(links: seq<Link>, name: string, ids: map<Pod, string>) returns (link: Option<Link>)
    ensures link == Pick(links, name, ids)
  {
    if name == "" {
      return if |links| == 1 then Some(links[0]) else None;
    }
    var i := 0;
    while i < |links|
      invariant i <= |links| && FirstNamed(links, name, ids) == FirstNamed(links[i..], name, ids)
    {
      if links[i].pod in ids && ids[links[i].pod] == name {
        return Some(links[i]);
      }
      i := i + 1;
    }
    link := None;
  }

  /** The bridge and the pods it may reach. */
  class Bridge {
    var settings: Settings
    ghost var history: seq<SetEvent>

    constructor (settings: Settings)
      ensures this.settings == settings && history == []
    {
      this.settings, history := settings, [];
    }

    /** bridgeSetProxy with a proxy. */
    method SetProxy(pod: Pod, proxy: Proxy, fate: SetFate) returns (ok: bool)
      modifies this
      ensures ok == fate.SetDone?
      ensures settings == if fate.SetRefused? then old(settings) else old(settings)[pod := proxy]
      ensures history == if fate.SetRefused? then old(history) else old(history) + [SetEvent(pod, proxy, fate.SetLost?)]
    {
      if !fate.SetRefused? {
        settings, history := settings[pod := proxy], history + [SetEvent(pod, proxy, fate.SetLost?)];
      }
      ok := fate.SetDone?;
    }

    /** bridgeSetProxy without one. */
    method ClearProxy(pod: Pod, fate: ClearFate) returns (ok: bool)
      modifies this
      ensures ok == fate.ClearDone? && history == old(history)
      ensures settings == if fate.ClearRefused? then old(settings) else old(settings) - {pod}
    {
      if !fate.ClearRefused? {
        settings := settings - {pod};
      }
      ok := fate.ClearDone?;
    }

    /** One round up to serving. s is the run so far. */
    method Attempt(r: Round, name: string, port: int, ghost s: State) returns (why: Option<Why>, lent: Option<SetEvent>)
      requires settings == s.settings && history == s.history
      modifies this
      ensures why == Obstacle(s, r, name, port)
      ensures var t := if Sets(s, r, name) then Lent(s, r, name, port) else s;
              && settings == t.settings && history == t.history
              && t.setOn == (if lent.Some? then Some(lent.value.pod) else s.setOn)
              && t.setByUs == (if lent.Some? then Some(lent.value.proxy) else s.setByUs)
    {
      lent := None;
      if |r.links| == 0 {
        return Some(NoLink), lent;
      }
      var link := PickUsbLink(r.links, name, r.ids);
      if link.None? {
        return Some(NotPicked), lent;
      }
      if !r.answers {
        return Some(NoAnswer), lent;
      }
      var l := link.value;
      var proxy := Proxy(l.host, port);
      var cur := if l.pod in settings && !r.garbled then Some(settings[l.pod]) else None;
      if cur.Some? && cur.value != proxy {
        return Some(OtherProxy(cur.value)), lent;
      }
      if !r.listens {
        return Some(CannotListen), lent;
      }
      if cur != Some(proxy) {
        var ok := SetProxy(l.pod, proxy, r.setFate);
        if !ok {
          return Some(SetFailed), lent;
        }
        lent := Some(SetEvent(l.pod, proxy, false));
      }
      why := None;
    }

    /** watchBridge; the caller stops it after the given rounds at the latest. */
    method WatchBridge(rounds: seq<Round>, name: string, port: int, keep: bool, once: bool, fate: ClearFate)
      returns (exit: Exit)
      requires history == []
      modifies this
      ensures var s := Run(Start(old(settings)), rounds, name, port, once);
              settings == FinalSettings(s, keep, fate) && exit == ExitOf(s, keep, fate)
    {
      var setByUs, setOn, stopWhy: Option<Why> := None, None, None;
      var i, stopped := 0, false;
      ghost var s := Start(settings);
      while i < |rounds| && !stopped
        invariant i <= |rounds|
        invariant s == Run(Start(old(settings)), rounds[..i], name, port, once)
        invariant s == State(settings, setOn, setByUs, history, stopped, stopWhy)
        invariant setOn.Some? <==> setByUs.Some?
      {
        var r := rounds[i];
        assert rounds[..i + 1][..i] == rounds[..i];
        i := i + 1;
        var why, lent := Attempt(r, name, port, s);
        if lent.Some? {
          setByUs, setOn := Some(lent.value.proxy), Some(lent.value.pod);
        }
        if why.Some? {
          if once {
            stopWhy := why;
          }
          stopped := once || r.cancelled;
        } else if r.ends {
          stopped := true;
        } else if once {
          stopWhy, stopped := Some(LinkGone), true;
        }
        s := After(s, r, name, port, once);
      }
      StopsForGood(Start(old(settings)), rounds, i, name, port, once);
      if setByUs.Some? && !keep {
        var ok := ClearProxy(setOn.value, fate);
        if !ok {
          return ClearFailed;
        }
      }
      exit := if stopWhy.Some? then Stopped(stopWhy.value) else Clean;
    }
  }

  lemma {:induction false} StopsForGood(s: State, rounds: seq<Round>, i: nat, name: string, port: int, once: bool)
    requires i <= |rounds| && (i == |rounds| || Run(s, rounds[..i], name, port, once).stopped)
    ensures Run(s, rounds, name, port, once) == Run(s, rounds[..i], name, port, once)
  {
    if i == |rounds| {
      assert rounds[..i] == rounds;
    } else {
      var front := rounds[..|rounds| - 1];
      assert front[..i] == rounds[..i];
      StopsForGood(s, front, i, name, port, once);
    }
  }
}

/**
  Refresh-token rotation with reuse detection (refresh in src/modules/auth/auth.service.ts and the
  conditional updates in src/modules/users/users.repository.ts), as the steps of any number of
  concurrent requests.  Token hashes are numbers; a new one is always fresh.
 */
module Refresh {
  import opened Options

  datatype Session = Session(user: int, hash: nat, expiresAt: int, revoked: bool)

  /** How far a request that presented the token `h` has got. */
  datatype Phase =
    | Arrived(h: nat)
    | Found(h: nat, sid: nat)
    | Missing(h: nat)
    | Replayed(h: nat, sid: nat)
    | Rotated(h: nat, sid: nat, issued: nat)
    | Issued(h: nat, issued: nat)
    | Rejected(h: nat)
    | Reused(h: nat, sid: nat)

  /** `from` was exchanged for `to`. */
  datatype Exchange = Exchange(from: nat, to: nat, sid: nat)

  /** `used` holds the stored used-markers; `log` records every exchange that ever happened. */
  datatype State = State(
    sessions: map<nat, Session>, used: map<nat, nat>, requests: seq<Phase>, next: nat, now: int, log: seq<Exchange>)

  datatype Action =
    | Login(sid: nat, user: int, ttl: int)
    | Arrive(token: nat)
    | Find(r: nat, userExists: bool)
    | CheckMarker(r: nat)
    | RevokeReused(r: nat)
    | Rotate(r: nat, ttl: int)
    | Mark(r: nat)
    | Revoke(sid: nat)
    | RevokeAll(user: int)
    | MarkerExpires(token: nat)
    | TimePasses(dt: nat)

  function Go(st: State, r: nat, p: Phase): State
    requires r < |st.requests|
  {
    st.(requests := st.requests[r := p])
  }

  predicate Carries(st: State, sid: nat, h: nat) { sid in st.sessions && st.sessions[sid].hash == h }

  function Revoked(st: State, sid: nat): State {
    if sid in st.sessions then st.(sessions := st.sessions[sid := st.sessions[sid].(revoked := true)]) else st
  }

  /** The session table's answer to a lookup by hash. */
  ghost function SessionOf(sessions: map<nat, Session>, h: nat): Option<nat> {
    if sid: nat :| sid in sessions && sessions[sid].hash == h then Some(sid) else None
  }

  ghost function FindStep(st: State, r: nat, userExists: bool): State
    requires r < |st.requests|
  {
    var h := st.requests[r].h;
    match SessionOf(st.sessions, h)
    case None => Go(st, r, Missing(h))
    case Some(sid) =>
      var s := st.sessions[sid];
      Go(st, r, if s.revoked || s.expiresAt < st.now || !userExists then Rejected(h) else Found(h, sid))
  }

  /** The conditional update: only if the row still carries the hash and is not revoked. */
  function RotateStep(st: State, r: nat, h: nat, sid: nat, ttl: int): State
    requires r < |st.requests|
  {
    if Carries(st, sid, h) && !st.sessions[sid].revoked then
      var s := st.sessions[sid].(hash := st.next, expiresAt := st.now + ttl);
      Go(st, r, Rotated(h, sid, st.next)).(
        sessions := st.sessions[sid := s], next := st.next + 1, log := st.log + [Exchange(h, st.next, sid)])
    else Go(st, r, Rejected(h))
  }

  /** One step; an action that is not enabled changes nothing. */
  ghost function Step(st: State, a: Action): State {
    match a
    case Login(sid, user, ttl) =>
      if sid in st.sessions then st
      else st.(sessions := st.sessions[sid := Session(user, st.next, st.now + ttl, false)], next := st.next + 1)
    case Arrive(h) => st.(requests := st.requests + [Arrived(h)])
    case Find(r, userExists) =>
      if r < |st.requests| && st.requests[r].Arrived? then FindStep(st, r, userExists) else st
    case CheckMarker(r) =>
      if !(r < |st.requests| && st.requests[r].Missing?) then st
      else
        var h := st.requests[r].h;
        Go(st, r, if h in st.used then Replayed(h, st.used[h]) else Rejected(h))
    case RevokeReused(r) =>
      if !(r < |st.requests| && st.requests[r].Replayed?) then st
      else Revoked(Go(st, r, Reused(st.requests[r].h, st.requests[r].sid)), st.requests[r].sid)
    case Rotate(r, ttl) =>
      if !(r < |st.requests| && st.requests[r].Found?) then st
      else RotateStep(st, r, st.requests[r].h, st.requests[r].sid, ttl)
    case Mark(r) =>
      if !(r < |st.requests| && st.requests[r].Rotated?) then st
      else
        var p := st.requests[r];
        Go(st, r, Issued(p.h, p.issued)).(used := st.used[p.h := p.sid])
    case Revoke(sid) => Revoked(st, sid)
    case RevokeAll(user) =>
      st.(sessions := map sid | sid in st.sessions ::
            if st.sessions[sid].user == user then st.sessions[sid].(revoked := true) else st.sessions[sid])
    case MarkerExpires(h) => st.(used := st.used - {h})
    case TimePasses(dt) => st.(now := st.now + dt)
  }

  ghost function Run(st: State, acts: seq<Action>): State
    decreases acts
  {
    if acts == [] then st else Run(Step(st, acts[0]), acts[1..])
  }

  const START := State(map[], map[], [], 0, 0, [])

  // ---------------------------------------------------------------------------------------------
  // What every step keeps
  // ---------------------------------------------------------------------------------------------

  ghost predicate HashesOk(st: State) {
    && (forall sid :: sid in st.sessions ==> st.sessions[sid].hash < st.next)
    && (forall a, b :: a in st.sessions && b in st.sessions && a != b ==> st.sessions[a].hash != st.sessions[b].hash)
  }

  /** Spent hashes stay spent: no session ever carries one again, and none is spent twice. */
  ghost predicate LogOk(st: State) {
    && (forall x :: x in st.log ==> x.from < st.next && x.sid in st.sessions)
    && (forall x, sid :: x in st.log && sid in st.sessions ==> st.sessions[sid].hash != x.from)
    && (forall i, j :: 0 <= i < j < |st.log| ==> st.log[i].from != st.log[j].from)
  }

  ghost predicate Spent(st: State, h: nat, sid: nat) { exists x :: x in st.log && x.from == h && x.sid == sid }

  ghost predicate RequestOk(st: State, p: Phase) {
    && (p.Rotated? ==> Spent(st, p.h, p.sid))
    && (p.Reused? ==> p.sid in st.sessions && st.sessions[p.sid].revoked)
    && (p.Replayed? ==> p.sid in st.sessions)
  }

  ghost predicate MarkersOk(st: State) {
    && (forall h :: h in st.used ==> Spent(st, h, st.used[h]))
    && (forall p :: p in st.requests ==> RequestOk(st, p))
  }

  ghost predicate Ok(st: State) { HashesOk(st) && LogOk(st) && MarkersOk(st) }

  /** Sessions keep their hash and log, and only ever gain revocations. */
  ghost predicate Quiet(st: State, st': State) {
    && st'.log == st.log && st'.next == st.next && st'.sessions.Keys == st.sessions.Keys
    && (forall sid :: sid in st.sessions ==> st'.sessions[sid].hash == st.sessions[sid].hash)
    && (forall sid :: sid in st.sessions && st.sessions[sid].revoked ==> st'.sessions[sid].revoked)
  }

  lemma QuietKeeps(st: State, st': State)
    requires Quiet(st, st') && Ok(st)
    requires forall h :: h in st'.used ==> Spent(st, h, st'.used[h])
    requires forall p :: p in st'.requests ==> p in st.requests || RequestOk(st', p)
    ensures Ok(st')
  {
    forall p | p in st'.requests ensures RequestOk(st', p) {
      if p in st.requests {
        assert RequestOk(st, p);
      }
    }
  }

  /** The steps that leave hashes and log alone. */
  predicate IsQuiet(a: Action) { !a.Login? && !a.Rotate? }

  lemma QuietStepKeeps(st: State, a: Action)
    requires Ok(st) && IsQuiet(a)
    ensures Ok(Step(st, a)) && Quiet(st, Step(st, a))
  {
    hide HashesOk, LogOk;
    var st' := Step(st, a);
    MarkersStay(st, a);
    QuietKeeps(st, st');
  }

  lemma QuietStep(st: State, a: Action)
    requires IsQuiet(a)
    ensures Quiet(st, Step(st, a))
  {
  }

  lemma MarkersStay(st: State, a: Action)
    requires MarkersOk(st) && LogOk(st) && IsQuiet(a)
    ensures Quiet(st, Step(st, a))
    ensures var st' := Step(st, a);
            && (forall h :: h in st'.used ==> Spent(st, h, st'.used[h]))
            && (forall p :: p in st'.requests ==> p in st.requests || RequestOk(st', p))
  {
    hide HashesOk, SessionOf;
    QuietStep(st, a);
    var st' := Step(st, a);
    forall h | h in st'.used ensures Spent(st, h, st'.used[h]) {
      if a.Mark? && st' != st {
        var m := st.requests[a.r];
        assert RequestOk(st, m);
      }
    }
    forall p | p in st'.requests && p !in st.requests ensures RequestOk(st', p) {
      if p.Replayed? {
        assert Spent(st, p.h, st.used[p.h]);
      } else if p.Reused? {
        assert RequestOk(st, st.requests[a.r]);
      }
    }
  }

  /** A won rotation: the session moves to a fresh hash and the spent one is logged. */
  lemma RotationKeepsHashes(st: State, r: nat, ttl: int)
    requires HashesOk(st) && LogOk(st) && Step(st, Rotate(r, ttl)).log != st.log
    ensures HashesOk(Step(st, Rotate(r, ttl))) && LogOk(Step(st, Rotate(r, ttl)))
  {
    var h, sid := st.requests[r].h, st.requests[r].sid;
    assert Step(st, Rotate(r, ttl)).log == st.log + [Exchange(h, st.next, sid)];
  }

  lemma RotationKeepsMarkers(st: State, r: nat, ttl: int)
    requires MarkersOk(st) && Step(st, Rotate(r, ttl)).log != st.log
    ensures MarkersOk(Step(st, Rotate(r, ttl)))
  {
    var st' := Step(st, Rotate(r, ttl));
    var x := st'.log[|st.log|];
    assert x in st'.log && forall y :: y in st.log ==> y in st'.log;
    forall h, sid | Spent(st, h, sid) ensures Spent(st', h, sid) {
    }
    forall p | p in st'.requests ensures RequestOk(st', p) {
      assert p in st.requests ==> RequestOk(st, p);
    }
  }

  lemma RotateKeeps(st: State, r: nat, ttl: int)
    requires Ok(st)
    ensures Ok(Step(st, Rotate(r, ttl)))
  {
    hide HashesOk, LogOk, MarkersOk;
    var st' := Step(st, Rotate(r, ttl));
    if st'.log != st.log {
      RotationKeepsHashes(st, r, ttl);
      RotationKeepsMarkers(st, r, ttl);
    } else {
      LostRotationKeeps(st, r, ttl);
    }
  }

  lemma LostRotationKeeps(st: State, r: nat, ttl: int)
    requires Ok(st) && Step(st, Rotate(r, ttl)).log == st.log
    ensures Ok(Step(st, Rotate(r, ttl)))
  {
    hide HashesOk, LogOk;
    var st' := Step(st, Rotate(r, ttl));
    QuietKeeps(st, st');
  }

  lemma StepKeeps(st: State, a: Action)
    requires Ok(st)
    ensures Ok(Step(st, a))
  {
    if a.Rotate? {
      RotateKeeps(st, a.r, a.ttl);
    } else if !a.Login? {
      QuietStepKeeps(st, a);
    }
  }

  lemma {:induction false} RunKeeps(st: State, acts: seq<Action>)
    requires Ok(st)
    ensures Ok(Run(st, acts))
    decreases acts
  {
    hide Ok, Step;
    if acts != [] {
      StepKeeps(st, acts[0]);
      RunKeeps(Step(st, acts[0]), acts[1..]);
    }
  }

  // ---------------------------------------------------------------------------------------------
  // Each token is exchanged at most once, along one chain per session
  // ---------------------------------------------------------------------------------------------

  lemma TokenExchangedOnce(acts: seq<Action>, i: nat, j: nat)
    requires i < j < |Run(START, acts).log|
    ensures Run(START, acts).log[i].from != Run(START, acts).log[j].from
  {
    hide Run;
    RunKeeps(START, acts);
  }

  /** The exchanges of one session, oldest first. */
  function Owned(log: seq<Exchange>, sid: nat): seq<Exchange> {
    if log == [] then []
    else Owned(log[..|log|-1], sid) + (if log[|log|-1].sid == sid then [log[|log|-1]] else [])
  }

  lemma OwnedAppend(log: seq<Exchange>, x: Exchange, sid: nat)
    ensures Owned(log + [x], sid) == Owned(log, sid) + (if x.sid == sid then [x] else [])
  {
    assert (log + [x])[..|log|] == log;
  }

  /** Every exchange spends the token the previous one issued; the session carries the last. */
  ghost predicate Chain(xs: seq<Exchange>, hash: nat) {
    && (forall i :: 0 <= i < |xs| - 1 ==> xs[i].to == xs[i+1].from)
    && (xs != [] ==> xs[|xs|-1].to == hash)
  }

  ghost predicate Chained(st: State) {
    forall sid :: sid in st.sessions ==> Chain(Owned(st.log, sid), st.sessions[sid].hash)
  }

  lemma {:induction false} NothingOwned(log: seq<Exchange>, sid: nat)
    requires forall x :: x in log ==> x.sid != sid
    ensures Owned(log, sid) == []
  {
    if log != [] {
      NothingOwned(log[..|log|-1], sid);
    }
  }

  lemma StepKeepsChains(st: State, a: Action)
    requires Ok(st) && Chained(st)
    ensures Chained(Step(st, a))
  {
    hide Owned, MarkersOk, HashesOk;
    var st' := Step(st, a);
    if a.Login? {
      NothingOwned(if a.sid in st.sessions then [] else st.log, a.sid);
    } else if a.Rotate? {
      if st'.log != st.log {
        forall sid | sid in st.sessions ensures Chain(Owned(st'.log, sid), st'.sessions[sid].hash) {
          OwnedAppend(st.log, st'.log[|st.log|], sid);
        }
      }
    } else {
      QuietStep(st, a);
    }
  }

  /** In every interleaving a session's exchanges form one chain ending in the hash it carries. */
  lemma {:induction false} RunKeepsChains(st: State, acts: seq<Action>)
    requires Ok(st) && Chained(st)
    ensures Chained(Run(st, acts))
    decreases acts
  {
    hide Ok, Chained, Step;
    if acts != [] {
      StepKeeps(st, acts[0]);
      StepKeepsChains(st, acts[0]);
      RunKeepsChains(Step(st, acts[0]), acts[1..]);
    }
  }

  // ---------------------------------------------------------------------------------------------
  // A revoked session never rotates again
  // ---------------------------------------------------------------------------------------------

  ghost predicate IsRevoked(st: State, sid: nat) { sid in st.sessions && st.sessions[sid].revoked }

  lemma RevokedStep(st: State, a: Action, sid: nat)
    requires IsRevoked(st, sid)
    ensures IsRevoked(Step(st, a), sid) && Owned(Step(st, a).log, sid) == Owned(st.log, sid)
    ensures Step(st, a).sessions[sid].hash == st.sessions[sid].hash
  {
    hide Owned;
    if a.Rotate? {
      var st' := Step(st, a);
      if st'.log != st.log {
        OwnedAppend(st.log, st'.log[|st.log|], sid);
      }
    } else if !a.Login? {
      QuietStep(st, a);
    }
  }

  lemma {:induction false} RevokedForever(st: State, acts: seq<Action>, sid: nat)
    requires IsRevoked(st, sid)
    ensures IsRevoked(Run(st, acts), sid) && Owned(Run(st, acts).log, sid) == Owned(st.log, sid)
    ensures Run(st, acts).sessions[sid].hash == st.sessions[sid].hash
    decreases acts
  {
    hide Step, Owned;
    if acts != [] {
      RevokedStep(st, acts[0], sid);
      RevokedForever(Step(st, acts[0]), acts[1..], sid);
    }
  }

  // ---------------------------------------------------------------------------------------------
  // Who can exchange, and who is caught
  // ---------------------------------------------------------------------------------------------

  ghost predicate Live(st: State, sid: nat, h: nat) {
    Carries(st, sid, h) && !st.sessions[sid].revoked && st.sessions[sid].expiresAt >= st.now
  }

  /** The request that is still to arrive, in phase `p`. */
  function Answered(st: State, p: Phase): State { st.(requests := st.requests + [p]) }

  /** A client presents `h` and nothing else happens until the request is through. */
  ghost function Present(st: State, h: nat, ttl: int): State {
    var r := |st.requests|;
    var looked := Step(Step(st, Arrive(h)), Find(r, true));
    Step(Step(Step(looked, Rotate(r, ttl)), CheckMarker(r)), RevokeReused(r))
  }

  /** Presenting a token the session table does not know. */
  lemma PresentUnknown(st: State, h: nat, ttl: int)
    requires SessionOf(st.sessions, h) == None
    ensures Present(st, h, ttl) ==
            if h in st.used then Revoked(Answered(st, Reused(h, st.used[h])), st.used[h]) else Answered(st, Rejected(h))
  {
    var st2 := Answered(st, Missing(h));
    var p := if h in st.used then Replayed(h, st.used[h]) else Rejected(h);
    assert Step(Step(st2, Rotate(|st.requests|, ttl)), CheckMarker(|st.requests|)) == Answered(st, p);
  }

  lemma PresentKnown(st: State, h: nat, sid: nat, ttl: int)
    requires SessionOf(st.sessions, h) == Some(sid)
    ensures |Present(st, h, ttl).log| > |st.log| <==> Live(st, sid, h)
  {
  }

  /**
    A token is exchanged exactly when it is the one its live session carries: so an unrevoked,
    unexpired session has one exchangeable token, and a revoked one has none.
   */
  lemma ExchangedIffCarried(st: State, h: nat, ttl: int)
    requires Ok(st)
    ensures |Present(st, h, ttl).log| > |st.log| <==> exists sid :: Live(st, sid, h)
  {
    hide Present, MarkersOk, LogOk;
    match SessionOf(st.sessions, h)
    case None => PresentUnknown(st, h, ttl);
    case Some(sid) =>
      PresentKnown(st, h, sid, ttl);
      forall x | Live(st, x, h) ensures x == sid {
      }
  }

  /**
    Replaying a spent token leaves its session revoked exactly when the session was revoked already
    or the used-marker is stored: between the swap and the mark a replay is refused but not punished.
   */
  lemma ReplayRevokesIffMarked(st: State, h: nat, sid: nat, ttl: int)
    requires Ok(st) && Spent(st, h, sid)
    ensures Present(st, h, ttl).log == st.log
    ensures IsRevoked(Present(st, h, ttl), sid) <==> IsRevoked(st, sid) || h in st.used
  {
    hide Present, HashesOk;
    PresentUnknown(st, h, ttl);
  }

  // The same in the middle of anything: other requests, logins, revocations and rotations.

  predicate OnReplayPath(p: Phase, h: nat) { p.h == h && (p.Arrived? || p.Missing? || p.Replayed? || p.Reused?) }

  ghost predicate Caught(st: State, r: nat, h: nat, sid: nat) {
    && r < |st.requests| && OnReplayPath(st.requests[r], h)
    && ((st.requests[r].Replayed? || st.requests[r].Reused?) ==> st.requests[r].sid == sid)
    && h in st.used && st.used[h] == sid
  }

  lemma CaughtStep(st: State, a: Action, r: nat, h: nat, sid: nat)
    requires Ok(st) && Caught(st, r, h, sid) && a != MarkerExpires(h)
    ensures Caught(Step(st, a), r, h, sid)
  {
    hide HashesOk, Carries;
    assert Spent(st, h, sid);
    if a.Mark? && a.r < |st.requests| && st.requests[a.r].Rotated? && st.requests[a.r].h == h {
      assert RequestOk(st, st.requests[a.r]);
    }
  }

  /**
    Once a token's used-marker is stored, a request presenting it can only go the way to revocation,
    whatever the others do meanwhile; when it has been answered, the session is revoked.
   */
  lemma {:induction false} ReplayIsCaught(st: State, acts: seq<Action>, r: nat, h: nat, sid: nat)
    requires Ok(st) && Caught(st, r, h, sid) && MarkerExpires(h) !in acts
    ensures Caught(Run(st, acts), r, h, sid)
    ensures Run(st, acts).requests[r].Reused? ==> IsRevoked(Run(st, acts), sid)
    decreases acts
  {
    hide Step, Spent;
    if acts != [] {
      StepKeeps(st, acts[0]);
      CaughtStep(st, acts[0], r, h, sid);
      ReplayIsCaught(Step(st, acts[0]), acts[1..], r, h, sid);
    } else {
      assert RequestOk(st, st.requests[r]);
    }
  }

  // ---------------------------------------------------------------------------------------------
  // Every answered refresh leaves its marker
  // ---------------------------------------------------------------------------------------------

  lemma {:induction false} RunSnoc(st: State, acts: seq<Action>, a: Action)
    ensures Run(st, acts + [a]) == Step(Run(st, acts), a)
    decreases acts
  {
    hide Step;
    if acts == [] {
      assert [] + [a] == [a] && [a][1..] == [];
    } else {
      assert (acts + [a])[1..] == acts[1..] + [a];
      RunSnoc(Step(st, acts[0]), acts[1..], a);
    }
  }

  /** The client of request r has been given its new token for `h`. */
  ghost predicate Served(st: State, r: nat, h: nat) {
    r < |st.requests| && st.requests[r].Issued? && st.requests[r].h == h
  }

  ghost predicate NotExpiredSince(acts: seq<Action>, r: nat, h: nat) {
    forall m :: 0 <= m < |acts| && acts[m] == MarkerExpires(h) ==> !Served(Run(START, acts[..m]), r, h)
  }

  ghost predicate Marked(st: State, h: nat) { h in st.used && Spent(st, h, st.used[h]) }

  lemma ServedStep(st: State, a: Action, r: nat, h: nat)
    requires Ok(st) && Served(Step(st, a), r, h)
    requires Served(st, r, h) ==> Marked(st, h) && a != MarkerExpires(h)
    ensures h in Step(st, a).used
    ensures Served(st, r, h) ==> Step(st, a).used[h] == st.used[h]
  {
    hide HashesOk, Carries, SessionOf;
    if Served(st, r, h) && a.Mark? && a.r < |st.requests| && st.requests[a.r].Rotated? && st.requests[a.r].h == h {
      assert RequestOk(st, st.requests[a.r]);
    }
  }

  /** In every run, a served exchange has its marker stored until the marker expires. */
  lemma {:induction false} ServedIsMarked(acts: seq<Action>, r: nat, h: nat)
    requires Served(Run(START, acts), r, h) && NotExpiredSince(acts, r, h)
    ensures Ok(Run(START, acts)) && Marked(Run(START, acts), h)
    decreases |acts|
  {
    hide Step, Ok, Spent, Served;
    NobodyServed(r, h);
    RunKeeps(START, acts);
    if acts != [] {
      var n := |acts| - 1;
      var init, a := acts[..n], acts[n];
      assert acts == init + [a];
      RunSnoc(START, init, a);
      RunKeeps(START, init);
      if Served(Run(START, init), r, h) {
        forall m | 0 <= m < |init| ensures init[..m] == acts[..m] {
        }
        ServedIsMarked(init, r, h);
      }
      ServedStep(Run(START, init), a, r, h);
      MarkersAreSpent(Run(START, acts), h);
    }
  }

  lemma NobodyServed(r: nat, h: nat)
    ensures !Served(START, r, h) && Ok(START)
  {
  }

  lemma MarkersAreSpent(st: State, h: nat)
    requires Ok(st) && h in st.used
    ensures Marked(st, h)
  {
  }

  /**
    So whoever presents a token that was exchanged by a served request has its session revoked, as long
    as the marker has not expired.
   */
  lemma ReplayAfterServedRevokes(acts: seq<Action>, r: nat, h: nat, ttl: int) returns (sid: nat)
    requires Served(Run(START, acts), r, h) && NotExpiredSince(acts, r, h)
    ensures Spent(Run(START, acts), h, sid) && IsRevoked(Present(Run(START, acts), h, ttl), sid)
  {
    hide Run, Present, Ok;
    ServedIsMarked(acts, r, h);
    var st := Run(START, acts);
    sid := st.used[h];
    ReplayRevokesIffMarked(st, h, sid, ttl);
  }

  // ---------------------------------------------------------------------------------------------
  // Lifetimes, and signing out everywhere
  // ---------------------------------------------------------------------------------------------

  /** An exchange hands out a new token, which lives for the full time to live from now. */
  lemma NewTokenLives(st: State, h: nat, sid: nat, ttl: int, dt: nat)
    requires Ok(st) && Live(st, sid, h)
    ensures var later := Step(Present(st, h, ttl), TimePasses(dt));
            && later.log == st.log + [Exchange(h, st.next, sid)]
            && (Live(later, sid, st.next) <==> dt <= ttl)
            && forall x :: !Live(later, x, h)
  {
    hide MarkersOk, LogOk, Present;
    assert SessionOf(st.sessions, h) == Some(sid);
    PresentLive(st, h, sid, ttl);
  }

  lemma PresentLive(st: State, h: nat, sid: nat, ttl: int)
    requires SessionOf(st.sessions, h) == Some(sid) && Live(st, sid, h)
    ensures Present(st, h, ttl) == RotateStep(Answered(st, Found(h, sid)), |st.requests|, h, sid, ttl)
  {
    hide RotateStep;
    var r := |st.requests|;
    var found := Answered(st, Found(h, sid));
    assert Step(Step(st, Arrive(h)), Find(r, true)) == found;
    RotateEnds(found, r, h, sid, ttl);
  }

  lemma RotateEnds(st: State, r: nat, h: nat, sid: nat, ttl: int)
    requires r < |st.requests| && st.requests[r] == Found(h, sid) && Carries(st, sid, h) && !st.sessions[sid].revoked
    ensures Step(Step(Step(st, Rotate(r, ttl)), CheckMarker(r)), RevokeReused(r)) == RotateStep(st, r, h, sid, ttl)
  {
  }

  /** A single sign-out does the same to its session. */
  lemma RevokeRevokes(st: State, acts: seq<Action>, sid: nat)
    requires sid in st.sessions
    ensures var out := Step(st, Revoke(sid));
            IsRevoked(Run(out, acts), sid) && Owned(Run(out, acts).log, sid) == Owned(st.log, sid)
  {
    hide Run, Owned;
    RevokedForever(Step(st, Revoke(sid)), acts, sid);
  }

  /** Signing a user out everywhere: none of the user's sessions ever exchanges a token again, the others go on. */
  lemma RevokeAllRevokes(st: State, user: int, acts: seq<Action>, sid: nat)
    requires sid in st.sessions
    ensures var out := Step(st, RevokeAll(user));
            && (st.sessions[sid].user != user ==> out.sessions[sid] == st.sessions[sid])
            && (st.sessions[sid].user == user ==>
                  IsRevoked(Run(out, acts), sid) && Owned(Run(out, acts).log, sid) == Owned(st.log, sid))
  {
    hide Run, Owned;
    if st.sessions[sid].user == user {
      RevokedForever(Step(st, RevokeAll(user)), acts, sid);
    }
  }

  // ---------------------------------------------------------------------------------------------
  // Who gets past the lookup
  // ---------------------------------------------------------------------------------------------

  predicate PastLookup(p: Phase) { p.Found? || p.Rotated? || p.Issued? }

  /** At step m the request was looked up with an existing user and a live session that carried its token. */
  ghost predicate FoundAt(acts: seq<Action>, r: nat, h: nat, m: nat) {
    && m < |acts| && acts[m] == Find(r, true)
    && exists sid :: Live(Run(START, acts[..m]), sid, h)
  }

  lemma OnlyFindPasses(st: State, a: Action, r: nat)
    requires r < |Step(st, a).requests| && PastLookup(Step(st, a).requests[r])
    ensures r < |st.requests| && st.requests[r].h == Step(st, a).requests[r].h
    ensures PastLookup(st.requests[r]) || (a == Find(r, true) && exists sid :: Live(st, sid, st.requests[r].h))
  {
    if !PastLookup(st.requests[r]) {
      assert a == Find(r, true);
      var sid := SessionOf(st.sessions, st.requests[r].h).value;
      assert Live(st, sid, st.requests[r].h);
    }
  }

  /** In every run only a live session of an existing user gets a token exchanged. */
  lemma {:induction false} PassedWasLive(acts: seq<Action>, r: nat) returns (m: nat)
    requires r < |Run(START, acts).requests| && PastLookup(Run(START, acts).requests[r])
    ensures FoundAt(acts, r, Run(START, acts).requests[r].h, m)
    decreases |acts|
  {
    hide Step, PastLookup, Live;
    assert acts != [];
    m := |acts| - 1;
    var init, a := acts[..m], acts[m];
    assert acts == init + [a];
    RunSnoc(START, init, a);
    OnlyFindPasses(Run(START, init), a, r);
    if PastLookup(Run(START, init).requests[r]) {
      m := PassedWasLive(init, r);
      assert init[..m] == acts[..m];
    }
  }
}

/**
  The refund protocol (refundSubscription in src/modules/subscriptions/subscriptions.service.ts), as the
  steps of any number of concurrent requests for any number of payments.  The cooldown locks may expire
  at any moment and are deleted without asking whose they are; what protects a payment is the
  compare-and-set on its flag and the idempotency key of the call to Stripe.
 */
module Refund {

  datatype Ending = Refused | Refunded | Restored | Stranded

  /** How far a request has got.  From Locked to Releasing it believes it holds the lock. */
  datatype Phase =
    | Arrived
    | Eligible
    | Locked
    | Flipped
    | Failed
    | Releasing(ending: Ending)
    | Done(ending: Ending)

  /** A request for one payment; the tag is whatever else its key might be made from. */
  datatype Request = Request(payment: int, tag: int, phase: Phase)

  type KeyOf = (int, int) -> string

  datatype State = State(
    /** Payments whose flag is down, and those whose status is no longer `succeeded`. */
    down: set<int>,
    reversed: set<int>,
    locks: set<int>,
    requests: seq<Request>,
    /** Stripe: the payment each idempotency key has refunded, and the refunds that exist. */
    keys: map<string, int>,
    refunds: multiset<int>,
    /** Calls that created a refund, or replayed one, and still reported an error. */
    ambiguous: multiset<int>,
    /** Calls that Stripe refused because their key stands for another payment. */
    blocked: nat,
    /** Times the charge.refunded webhook took a flag that was up. */
    revoked: multiset<int>)

  datatype Outcome = Success | Definite | Ambiguous

  datatype Action =
    | Arrive(payment: int, tag: int)
    | Read(r: nat, inWindow: bool)
    | Acquire(r: nat)
    | Flip(r: nat)
    | CallStripe(r: nat, outcome: Outcome)
    | Restore(r: nat, written: bool)
    | Release(r: nat, deleted: bool)
    | LockExpires(payment: int)
    | ChargeRefunded(payment: int)

  const START := State({}, {}, {}, [], map[], multiset{}, multiset{}, 0, multiset{})

  predicate At(st: State, r: nat, phase: Phase) { r < |st.requests| && st.requests[r].phase == phase }

  function Go(st: State, r: nat, phase: Phase): State
    requires r < |st.requests|
  {
    st.(requests := st.requests[r := st.requests[r].(phase := phase)])
  }

  /** A fresh key makes a refund, a key seen with the same payment replays it. */
  function Charged(st: State, k: string, p: int): State {
    st.(keys := st.keys[k := p], refunds := if k in st.keys then st.refunds else st.refunds + multiset{p})
  }

  /** One step; an action that is not enabled changes nothing. */
  function Step(key: KeyOf, st: State, a: Action): State {
    match a
    case Arrive(p, tag) => st.(requests := st.requests + [Request(p, tag, Arrived)])
    case Read(r, inWindow) =>
      if !At(st, r, Arrived) then st
      else
        var p := st.requests[r].payment;
        Go(st, r, if p !in st.down && p !in st.reversed && inWindow then Eligible else Done(Refused))
    case Acquire(r) =>
      if !At(st, r, Eligible) then st
      else if st.requests[r].payment in st.locks then Go(st, r, Done(Refused))
      else Go(st, r, Locked).(locks := st.locks + {st.requests[r].payment})
    case Flip(r) =>
      if !At(st, r, Locked) then st
      else if st.requests[r].payment in st.down then Go(st, r, Releasing(Refused))
      else Go(st, r, Flipped).(down := st.down + {st.requests[r].payment})
    case CallStripe(r, outcome) =>
      if !At(st, r, Flipped) then st
      else
        var p := st.requests[r].payment;
        var k := key(p, st.requests[r].tag);
        if outcome == Definite then Go(st, r, Failed)
        else if k in st.keys && st.keys[k] != p then Go(st, r, Failed).(blocked := st.blocked + 1)
        else if outcome == Success then Go(Charged(st, k, p), r, Releasing(Refunded))
        else Go(Charged(st, k, p), r, Failed).(ambiguous := st.ambiguous + multiset{p})
    case Restore(r, written) =>
      if !At(st, r, Failed) then st
      else if written then Go(st, r, Releasing(Restored)).(down := st.down - {st.requests[r].payment})
      else Go(st, r, Releasing(Stranded))
    case Release(r, deleted) =>
      if r < |st.requests| && st.requests[r].phase.Releasing?
      then Go(st, r, Done(st.requests[r].phase.ending))
        .(locks := if deleted then st.locks - {st.requests[r].payment} else st.locks)
      else st
    case LockExpires(p) => st.(locks := st.locks - {p})
    case ChargeRefunded(p) =>
      st.(down := st.down + {p}, reversed := st.reversed + {p},
          revoked := if p in st.down then st.revoked else st.revoked + multiset{p})
  }

  function Run(key: KeyOf, st: State, acts: seq<Action>): State
    decreases acts
  {
    if acts == [] then st else Run(key, Step(key, st, acts[0]), acts[1..])
  }

  // ---------------------------------------------------------------------------------------------
  // Conservation of the one refund of a payment
  // ---------------------------------------------------------------------------------------------

  /** A request between its flip and its restore, or one that used the refund up. */
  predicate Claims(p: Phase) {
    p == Flipped || p == Failed || ((p.Releasing? || p.Done?) && (p.ending == Refunded || p.ending == Stranded))
  }

  predicate GotRefund(p: Phase) { (p.Releasing? || p.Done?) && p.ending == Refunded }

  function One(x: Request, p: int, claim: Phase -> bool): nat { if x.payment == p && claim(x.phase) then 1 else 0 }

  function Count(xs: seq<Request>, p: int, claim: Phase -> bool): nat {
    if xs == [] then 0 else One(xs[0], p, claim) + Count(xs[1..], p, claim)
  }

  lemma {:induction false} CountUpdate(xs: seq<Request>, r: nat, x: Request, p: int, claim: Phase -> bool)
    requires r < |xs|
    ensures Count(xs[r := x], p, claim) == Count(xs, p, claim) - One(xs[r], p, claim) + One(x, p, claim)
  {
    if r > 0 {
      CountUpdate(xs[1..], r - 1, x, p, claim);
      assert xs[r := x][1..] == xs[1..][r - 1 := x];
    } else {
      assert xs[0 := x][1..] == xs[1..];
    }
  }

  lemma {:induction false} CountAppend(xs: seq<Request>, x: Request, p: int, claim: Phase -> bool)
    ensures Count(xs + [x], p, claim) == Count(xs, p, claim) + One(x, p, claim)
  {
    if xs == [] {
      assert xs + [x] == [x];
    } else {
      assert (xs + [x])[1..] == xs[1..] + [x];
      CountAppend(xs[1..], x, p, claim);
    }
  }

  function Refundeds(st: State, p: int): nat { Count(st.requests, p, GotRefund) }

  function Claimed(st: State, p: int): nat { Count(st.requests, p, Claims) }

  function Up(st: State, p: int): nat { if p in st.down then 0 else 1 }

  /** A payment's flag, the requests holding it, and the webhook account for exactly one refund. */
  predicate Conserved(st: State, p: int) { Up(st, p) + Claimed(st, p) + st.revoked[p] == 1 }

  predicate Moves(key: KeyOf, st: State, a: Action) {
    && !a.Arrive? && !a.LockExpires? && !a.ChargeRefunded?
    && a.r < |st.requests| && Step(key, st, a).requests != st.requests
  }

  lemma MoveFrame(key: KeyOf, st: State, a: Action)
    requires Moves(key, st, a)
    ensures var st', x := Step(key, st, a), st.requests[a.r];
            && |st'.requests| == |st.requests| && st'.requests == st.requests[a.r := st'.requests[a.r]]
            && st'.requests[a.r].payment == x.payment && st'.revoked == st.revoked
  {
  }

  /** A move passes the one refund between the flag and the request, or leaves both alone. */
  lemma MovePassesClaim(key: KeyOf, st: State, a: Action, p: int)
    requires Moves(key, st, a) && !(a.Restore? && st.requests[a.r].payment !in st.down)
    ensures var st', x := Step(key, st, a), st.requests[a.r];
            && |st'.requests| == |st.requests|
            && Up(st', p) + One(st'.requests[a.r], p, Claims) == Up(st, p) + One(x, p, Claims)
  {
    MoveFrame(key, st, a);
  }

  lemma {:induction false} ClaimCounted(xs: seq<Request>, r: nat)
    requires r < |xs| && Claims(xs[r].phase)
    ensures Count(xs, xs[r].payment, Claims) >= 1
  {
    CountUpdate(xs, r, xs[r].(phase := Arrived), xs[r].payment, Claims);
  }

  lemma RestoreIsClaim(key: KeyOf, st: State, a: Action)
    requires (forall p :: Conserved(st, p)) && Moves(key, st, a)
    ensures !(a.Restore? && st.requests[a.r].payment !in st.down)
  {
    hide Count;
    if a.Restore? && st.requests[a.r].payment !in st.down {
      assert Conserved(st, st.requests[a.r].payment);
      ClaimCounted(st.requests, a.r);
    }
  }

  lemma StepConserves(key: KeyOf, st: State, a: Action, p: int)
    requires forall q :: Conserved(st, q)
    ensures Conserved(Step(key, st, a), p)
  {
    hide Claims, Count;
    assert Conserved(st, p);
    var st' := Step(key, st, a);
    if a.Arrive? {
      NewIsUnclaimed(Request(a.payment, a.tag, Arrived), p);
      CountAppend(st.requests, Request(a.payment, a.tag, Arrived), p, Claims);
    } else if Moves(key, st, a) {
      RestoreIsClaim(key, st, a);
      MoveFrame(key, st, a);
      MovePassesClaim(key, st, a, p);
      CountUpdate(st.requests, a.r, st'.requests[a.r], p, Claims);
    }
  }

  lemma NewIsUnclaimed(x: Request, p: int)
    ensures x.phase == Arrived ==> One(x, p, Claims) == 0 && One(x, p, GotRefund) == 0
  {
  }

  // ---------------------------------------------------------------------------------------------
  // What Stripe holds
  // ---------------------------------------------------------------------------------------------

  function KeysOf(st: State, p: int): set<string> { set k | k in st.keys && st.keys[k] == p }

  /** One refund per key; none exactly when no call of the payment was answered or ambiguous. */
  ghost predicate Accounted(st: State, p: int) {
    && st.refunds[p] == |KeysOf(st, p)|
    && (st.refunds[p] == 0 <==> Refundeds(st, p) + st.ambiguous[p] == 0)
  }

  /** Stripe only ever saw keys of the payments it holds them for. */
  ghost predicate KeysMade(key: KeyOf, st: State) {
    forall k :: k in st.keys ==> exists tag :: k == key(st.keys[k], tag)
  }

  lemma ChargedAccounts(st: State, k: string, p: int, q: int)
    requires st.refunds[q] == |KeysOf(st, q)| && (k in st.keys ==> st.keys[k] == p)
    ensures var st' := Charged(st, k, p);
            && st'.refunds[q] == |KeysOf(st', q)| >= st.refunds[q]
            && (q == p ==> st'.refunds[q] >= 1) && (q != p ==> st'.refunds[q] == st.refunds[q])
  {
    var st' := Charged(st, k, p);
    assert KeysOf(st', q) == if q == p then KeysOf(st, q) + {k} else KeysOf(st, q);
    if q == p {
      if k in st.keys {
        assert KeysOf(st, q) + {k} == KeysOf(st, q);
      } else {
        assert k !in KeysOf(st, q);
      }
      assert k in KeysOf(st', q);
    }
  }

  /** Only a call to Stripe changes what Stripe holds, or who was answered. */
  lemma OtherStepsAreSilent(key: KeyOf, st: State, a: Action)
    requires !a.CallStripe? && !a.Arrive?
    ensures var st' := Step(key, st, a);
            && st'.keys == st.keys && st'.refunds == st.refunds && st'.ambiguous == st.ambiguous
            && st'.blocked == st.blocked && |st'.requests| == |st.requests|
            && (Moves(key, st, a) ==> forall p ::
                  && st'.requests == st.requests[a.r := st'.requests[a.r]]
                  && One(st'.requests[a.r], p, GotRefund) == One(st.requests[a.r], p, GotRefund))
  {
  }

  lemma CallAccounts(key: KeyOf, st: State, r: nat, outcome: Outcome, p: int)
    requires Accounted(st, p) && At(st, r, Flipped)
    ensures Accounted(Step(key, st, CallStripe(r, outcome)), p)
  {
    hide Count, KeysOf;
    var x := st.requests[r];
    var k := key(x.payment, x.tag);
    CountUpdate(st.requests, r, x.(phase := Failed), p, GotRefund);
    CountUpdate(st.requests, r, x.(phase := Releasing(Refunded)), p, GotRefund);
    SameKeys(st, Step(key, st, CallStripe(r, outcome)), p);
    SameKeys(Charged(st, k, x.payment), Step(key, st, CallStripe(r, outcome)), p);
    if !(k in st.keys && st.keys[k] != x.payment) {
      ChargedAccounts(st, k, x.payment, p);
    }
  }

  lemma SameKeys(a: State, b: State, p: int)
    ensures a.keys == b.keys ==> KeysOf(a, p) == KeysOf(b, p)
  {
  }

  lemma StepAccounts(key: KeyOf, st: State, a: Action, p: int)
    requires Accounted(st, p)
    ensures Accounted(Step(key, st, a), p)
  {
    hide Count, KeysOf, Step;
    var st' := Step(key, st, a);
    if a.CallStripe? {
      if At(st, a.r, Flipped) {
        CallAccounts(key, st, a.r, a.outcome, p);
      } else {
        IdleCall(key, st, a);
      }
    } else if a.Arrive? {
      Arriving(key, st, a);
      NewIsUnclaimed(Request(a.payment, a.tag, Arrived), p);
      CountAppend(st.requests, Request(a.payment, a.tag, Arrived), p, GotRefund);
      SameKeys(st, st', p);
    } else {
      OtherStepsAreSilent(key, st, a);
      SameKeys(st, st', p);
      if Moves(key, st, a) {
        CountUpdate(st.requests, a.r, st'.requests[a.r], p, GotRefund);
      } else {
        Unmoved(key, st, a);
      }
    }
  }

  lemma IdleCall(key: KeyOf, st: State, a: Action)
    requires a.CallStripe? && !At(st, a.r, Flipped)
    ensures Step(key, st, a) == st
  {
  }

  lemma Arriving(key: KeyOf, st: State, a: Action)
    requires a.Arrive?
    ensures Step(key, st, a) == st.(requests := st.requests + [Request(a.payment, a.tag, Arrived)])
  {
  }

  lemma Unmoved(key: KeyOf, st: State, a: Action)
    requires !a.CallStripe? && !a.Arrive? && !Moves(key, st, a)
    ensures Step(key, st, a).requests == st.requests
  {
  }

  lemma StepMakesKeys(key: KeyOf, st: State, a: Action)
    requires KeysMade(key, st)
    ensures KeysMade(key, Step(key, st, a))
  {
  }

  ghost predicate Sound(key: KeyOf, st: State) {
    KeysMade(key, st) && forall p :: Conserved(st, p) && Accounted(st, p)
  }

  lemma StartIsSound(key: KeyOf)
    ensures Sound(key, START)
  {
    forall p ensures Conserved(START, p) && Accounted(START, p) {
      assert KeysOf(START, p) == {};
    }
  }

  lemma {:induction false} RunKeeps(key: KeyOf, st: State, acts: seq<Action>)
    requires Sound(key, st)
    ensures Sound(key, Run(key, st, acts))
    decreases acts
  {
    hide Conserved, Accounted, Step, KeysMade;
    if acts != [] {
      var st' := Step(key, st, acts[0]);
      StepMakesKeys(key, st, acts[0]);
      forall p ensures Conserved(st', p) && Accounted(st', p) {
        StepConserves(key, st, acts[0], p);
        StepAccounts(key, st, acts[0], p);
      }
      RunKeeps(key, st', acts[1..]);
    }
  }

  lemma EveryRunIsSound(key: KeyOf, acts: seq<Action>)
    ensures Sound(key, Run(key, START, acts))
  {
    hide Run, Sound;
    StartIsSound(key);
    RunKeeps(key, START, acts);
  }

  /**
    In every interleaving, with locks expiring or deleted by another request at any moment: a payment's
    flag, its requests between flip and restore, its completed refunds, its failed restores and the
    webhook's revocations add up to exactly one.
   */
  lemma OneRefundIsConserved(key: KeyOf, acts: seq<Action>, p: int)
    ensures Conserved(Run(key, START, acts), p)
  {
    hide Run, Conserved;
    EveryRunIsSound(key, acts);
  }

  lemma {:induction false} TwoClaims(xs: seq<Request>, r: nat, q: nat)
    requires r < q < |xs| && xs[r].payment == xs[q].payment && Claims(xs[r].phase) && Claims(xs[q].phase)
    ensures Count(xs, xs[r].payment, Claims) >= 2
  {
    var ys := xs[q := xs[q].(phase := Arrived)];
    CountUpdate(xs, q, ys[q], xs[r].payment, Claims);
    CountUpdate(ys, r, xs[r].(phase := Arrived), xs[r].payment, Claims);
  }

  /** No two requests for a payment ever stand between flip and restore, and none does once a refund completed. */
  lemma FlipExcludes(key: KeyOf, acts: seq<Action>, r: nat, q: nat)
    requires var xs := Run(key, START, acts).requests; r < q < |xs| && xs[r].payment == xs[q].payment
    ensures var xs := Run(key, START, acts).requests; !(Claims(xs[r].phase) && Claims(xs[q].phase))
  {
    hide Run;
    var xs := Run(key, START, acts).requests;
    OneRefundIsConserved(key, acts, xs[r].payment);
    if Claims(xs[r].phase) && Claims(xs[q].phase) {
      TwoClaims(xs, r, q);
    }
  }

  // ---------------------------------------------------------------------------------------------
  // What the key has to be
  // ---------------------------------------------------------------------------------------------

  predicate SameKeyPerPayment(key: KeyOf, p: int, tag: int, tag': int) { key(p, tag) == key(p, tag') }

  ghost predicate ConstantPerPayment(key: KeyOf) { forall p, tag, tag' :: SameKeyPerPayment(key, p, tag, tag') }

  ghost predicate ApartAcrossPayments(key: KeyOf) { forall p, q, tag, tag' :: p != q ==> key(p, tag) != key(q, tag') }

  /** Stripe has made a payment's refund once, as soon as any call for it was answered or ambiguous. */
  lemma CreatedExactly(key: KeyOf, acts: seq<Action>, p: int)
    requires ConstantPerPayment(key)
    ensures var st := Run(key, START, acts);
            st.refunds[p] == if Refundeds(st, p) + st.ambiguous[p] == 0 then 0 else 1
  {
    hide Run;
    var st := Run(key, START, acts);
    EveryRunIsSound(key, acts);
    assert Accounted(st, p);
    if KeysOf(st, p) != {} {
      var k :| k in KeysOf(st, p);
      forall k' | k' in KeysOf(st, p) ensures k' == k {
        var tag :| k == key(p, tag);
        var tag' :| k' == key(p, tag');
        assert SameKeyPerPayment(key, p, tag, tag');
      }
      assert KeysOf(st, p) == {k};
    }
  }

  ghost predicate AtMostOneRefund(key: KeyOf) {
    forall acts, p :: Run(key, START, acts).refunds[p] <= 1
  }

  ghost predicate NeverBlocked(key: KeyOf) {
    forall acts :: Run(key, START, acts).blocked == 0
  }

  lemma {:induction false} RunConcat(key: KeyOf, st: State, xs: seq<Action>, ys: seq<Action>)
    ensures Run(key, st, xs + ys) == Run(key, Run(key, st, xs), ys)
    decreases xs
  {
    if xs == [] {
      assert xs + ys == ys;
    } else {
      assert (xs + ys)[1..] == xs[1..] + ys;
      RunConcat(key, Step(key, st, xs[0]), xs[1..], ys);
    }
  }

  /** A request that goes all the way to Stripe, as request number r. */
  function Claiming(p: int, tag: int, r: nat): seq<Action> { [Arrive(p, tag), Read(r, true), Acquire(r), Flip(r)] }

  function Failing(r: nat): seq<Action> { [CallStripe(r, Ambiguous), Restore(r, true), Release(r, true)] }

  predicate Free(st: State, p: int) { p !in st.down && p !in st.reversed && p !in st.locks }

  lemma FourSteps(key: KeyOf, st: State, a: Action, b: Action, c: Action, d: Action)
    ensures Run(key, st, [a, b, c, d]) == Step(key, Step(key, Step(key, Step(key, st, a), b), c), d)
    ensures Run(key, st, [a, b, c]) == Step(key, Step(key, Step(key, st, a), b), c)
    ensures Run(key, st, [a]) == Step(key, st, a)
  {
    hide Step;
    forall s, x ensures Run(key, s, [x]) == Step(key, s, x) {
      assert [x][1..] == [];
    }
    forall s, x, y ensures Run(key, s, [x, y]) == Run(key, Step(key, s, x), [y]) {
      assert [x, y][1..] == [y];
    }
    forall s, x, y, z ensures Run(key, s, [x, y, z]) == Run(key, Step(key, s, x), [y, z]) {
      assert [x, y, z][1..] == [y, z];
    }
    assert [a, b, c, d][1..] == [b, c, d];
  }

  function Adding(st: State, x: Request): State { st.(requests := st.requests + [x]) }

  lemma ReadStep(key: KeyOf, st: State, p: int, tag: int)
    requires Free(st, p)
    ensures Step(key, Adding(st, Request(p, tag, Arrived)), Read(|st.requests|, true)) == Adding(st, Request(p, tag, Eligible))
  {
    var st1 := Adding(st, Request(p, tag, Arrived));
    assert st1.requests[|st.requests| := Request(p, tag, Eligible)] == st.requests + [Request(p, tag, Eligible)];
  }

  lemma AcquireStep(key: KeyOf, st: State, p: int, tag: int)
    requires Free(st, p)
    ensures Step(key, Adding(st, Request(p, tag, Eligible)), Acquire(|st.requests|))
      == Adding(st, Request(p, tag, Locked)).(locks := st.locks + {p})
  {
    var st1 := Adding(st, Request(p, tag, Eligible));
    assert st1.requests[|st.requests| := Request(p, tag, Locked)] == st.requests + [Request(p, tag, Locked)];
  }

  lemma FlipStep(key: KeyOf, st: State, p: int, tag: int)
    requires p !in st.down
    ensures Step(key, Adding(st, Request(p, tag, Locked)), Flip(|st.requests|))
      == Adding(st, Request(p, tag, Flipped)).(down := st.down + {p})
  {
    var st1 := Adding(st, Request(p, tag, Locked));
    assert st1.requests[|st.requests| := Request(p, tag, Flipped)] == st.requests + [Request(p, tag, Flipped)];
  }

  /** A free payment's next request gets through to the call. */
  lemma ClaimingReaches(key: KeyOf, st: State, p: int, tag: int)
    requires Free(st, p)
    ensures Run(key, st, Claiming(p, tag, |st.requests|))
      == Adding(st, Request(p, tag, Flipped)).(down := st.down + {p}, locks := st.locks + {p})
  {
    hide Step, Run;
    var r := |st.requests|;
    FourSteps(key, st, Arrive(p, tag), Read(r, true), Acquire(r), Flip(r));
    Arriving(key, st, Arrive(p, tag));
    ReadStep(key, st, p, tag);
    AcquireStep(key, st, p, tag);
    FlipStep(key, st.(locks := st.locks + {p}), p, tag);
  }

  lemma CallStep(key: KeyOf, st: State, r: nat)
    requires At(st, r, Flipped)
    ensures var x, st' := st.requests[r], Step(key, st, CallStripe(r, Success));
            var k := key(x.payment, x.tag);
            && (k !in st.keys ==> st'.refunds == st.refunds + multiset{x.payment} && st'.keys == st.keys[k := x.payment])
            && (k in st.keys && st.keys[k] != x.payment ==> st'.blocked == st.blocked + 1)
            && |st'.requests| == |st.requests|
            && st'.down == st.down && st'.reversed == st.reversed && st'.locks == st.locks
            && (k !in st.keys ==> st'.blocked == st.blocked)
  {
  }

  /** A call that refunded and reported an error frees its payment again. */
  lemma FailingFrees(key: KeyOf, st: State, p: int, tag: int)
    requires st.requests == [Request(p, tag, Flipped)] && st.keys == map[] && st.refunds == multiset{}
    requires p !in st.reversed
    ensures var st' := Run(key, st, Failing(0));
            && Free(st', p) && |st'.requests| == 1
            && st'.keys == map[key(p, tag) := p] && st'.refunds == multiset{p}
  {
    FourSteps(key, st, CallStripe(0, Ambiguous), Restore(0, true), Release(0, true), LockExpires(p));
    var st1 := Step(key, st, CallStripe(0, Ambiguous));
    assert st1.requests == [Request(p, tag, Failed)];
    var st2 := Step(key, st1, Restore(0, true));
    assert st2.requests == [Request(p, tag, Releasing(Restored))];
    var st3 := Step(key, st2, Release(0, true));
    assert st3.keys == map[key(p, tag) := p] && st3.refunds == multiset{p};
    assert p !in st2.down && p !in st3.locks;
    assert Failing(0)[0] == CallStripe(0, Ambiguous);
    assert Run(key, st, Failing(0)) == st3;
  }

  /** With two keys for one payment, the retry of an ambiguous failure refunds it again. */
  lemma RetriedRefundsTwice(key: KeyOf, p: int, tag: int, tag': int) returns (acts: seq<Action>)
    requires key(p, tag) != key(p, tag')
    ensures Run(key, START, acts).refunds[p] == 2
  {
    hide Run, Step, Failing;
    var call := [CallStripe(1, Success)];
    acts := Claiming(p, tag, 0) + Failing(0) + Claiming(p, tag', 1) + call;
    ClaimingReaches(key, START, p, tag);
    FailingFrees(key, Run(key, START, Claiming(p, tag, 0)), p, tag);
    RunConcat(key, START, Claiming(p, tag, 0), Failing(0));
    var failed := Run(key, START, Claiming(p, tag, 0) + Failing(0));
    ClaimingReaches(key, failed, p, tag');
    RunConcat(key, START, Claiming(p, tag, 0) + Failing(0), Claiming(p, tag', 1));
    RunConcat(key, START, Claiming(p, tag, 0) + Failing(0) + Claiming(p, tag', 1), call);
    var claimed := Run(key, failed, Claiming(p, tag', 1));
    FourSteps(key, claimed, call[0], call[0], call[0], call[0]);
    CallStep(key, claimed, 1);
  }

  /** With one key for two payments, the refund of the first bars the second. */
  lemma SharedKeyBlocks(key: KeyOf, p: int, q: int, tag: int, tag': int) returns (acts: seq<Action>)
    requires p != q && key(p, tag) == key(q, tag')
    ensures Run(key, START, acts).blocked == 1
  {
    hide Run, Step;
    var first, second := [CallStripe(0, Success)], [CallStripe(1, Success)];
    acts := Claiming(p, tag, 0) + first + Claiming(q, tag', 1) + second;
    ClaimingReaches(key, START, p, tag);
    var claimed := Run(key, START, Claiming(p, tag, 0));
    FourSteps(key, claimed, first[0], first[0], first[0], first[0]);
    CallStep(key, claimed, 0);
    RunConcat(key, START, Claiming(p, tag, 0), first);
    var refunded := Run(key, START, Claiming(p, tag, 0) + first);
    ClaimingReaches(key, refunded, q, tag');
    RunConcat(key, START, Claiming(p, tag, 0) + first, Claiming(q, tag', 1));
    RunConcat(key, START, Claiming(p, tag, 0) + first + Claiming(q, tag', 1), second);
    var again := Run(key, refunded, Claiming(q, tag', 1));
    FourSteps(key, again, second[0], second[0], second[0], second[0]);
    CallStep(key, again, 1);
  }

  lemma {:induction false} ApartNeverBlocks(key: KeyOf, st: State, acts: seq<Action>)
    requires ApartAcrossPayments(key) && KeysMade(key, st) && st.blocked == 0
    ensures Run(key, st, acts).blocked == 0
    decreases acts
  {
    if acts != [] {
      StepMakesKeys(key, st, acts[0]);
      assert Step(key, st, acts[0]).blocked == 0;
      ApartNeverBlocks(key, Step(key, st, acts[0]), acts[1..]);
    }
  }

  /**
    In every run each payment is refunded at most once exactly when its requests all use one key, and no
    request is barred by another payment's refund exactly when no two payments share a key.
   */
  lemma EachPaymentOnceIffKeyed(key: KeyOf)
    ensures AtMostOneRefund(key) <==> ConstantPerPayment(key)
    ensures NeverBlocked(key) <==> ApartAcrossPayments(key)
  {
    hide Run, Step;
    if ConstantPerPayment(key) {
      forall acts, p ensures Run(key, START, acts).refunds[p] <= 1 {
        CreatedExactly(key, acts, p);
      }
    } else {
      var p, tag, tag' :| !SameKeyPerPayment(key, p, tag, tag');
      var acts := RetriedRefundsTwice(key, p, tag, tag');
      assert Run(key, START, acts).refunds[p] > 1;
    }
    if ApartAcrossPayments(key) {
      forall acts ensures Run(key, START, acts).blocked == 0 {
        ApartNeverBlocks(key, START, acts);
      }
    } else {
      var p, q, tag, tag' :| p != q && key(p, tag) == key(q, tag');
      var acts := SharedKeyBlocks(key, p, q, tag, tag');
      assert Run(key, START, acts).blocked != 0;
    }
  }

  function Digits(n: nat): string {
    (if n < 10 then [] else Digits(n / 10)) + ["0123456789"[n % 10]]
  }

  /** The key of the source. */
  function RefundKey(payment: int, tag: int): string { "refund:" + Decimal(payment) }

  function Decimal(n: int): string { if n < 0 then "-" + Digits(-n) else Digits(n) }

  lemma {:induction false} DigitsApart(m: nat, n: nat)
    requires Digits(m) == Digits(n)
    ensures m == n
  {
    assert Digits(m)[|Digits(m)|-1] == "0123456789"[m % 10];
    assert Digits(n)[|Digits(n)|-1] == "0123456789"[n % 10];
    assert m % 10 == n % 10;
    if m >= 10 && n >= 10 {
      assert Digits(m)[..|Digits(m)|-1] == Digits(m / 10);
      assert Digits(n)[..|Digits(n)|-1] == Digits(n / 10);
      DigitsApart(m / 10, n / 10);
    }
  }

  lemma {:induction false} DigitsStart(n: nat)
    ensures Digits(n) != [] && Digits(n)[0] in "0123456789"
  {
    if n >= 10 {
      DigitsStart(n / 10);
    }
  }

  lemma DecimalApart(m: int, n: int)
    requires Decimal(m) == Decimal(n)
    ensures m == n
  {
    hide Digits;
    if m < 0 && n < 0 {
      assert Decimal(m)[1..] == Digits(-m) && Decimal(n)[1..] == Digits(-n);
      DigitsApart(-m, -n);
    } else if m >= 0 && n >= 0 {
      DigitsApart(m, n);
    } else {
      DigitsStart(if m < 0 then n else m);
    }
  }

  /** So with the key in use neither happens. */
  lemma RefundKeyIsKeyed()
    ensures AtMostOneRefund(RefundKey) && NeverBlocked(RefundKey)
  {
    hide Decimal, AtMostOneRefund, NeverBlocked;
    forall p, q, tag, tag' | p != q ensures RefundKey(p, tag) != RefundKey(q, tag') {
      if RefundKey(p, tag) == RefundKey(q, tag') {
        assert RefundKey(p, tag)[7..] == Decimal(p) && RefundKey(q, tag')[7..] == Decimal(q);
        DecimalApart(p, q);
      }
    }
    EachPaymentOnceIffKeyed(RefundKey);
  }

  // ---------------------------------------------------------------------------------------------
  // What the lock does not do, and what a failure does not cost
  // ---------------------------------------------------------------------------------------------

  /** Between taking the lock and releasing it. */
  predicate InSection(p: Phase) { p.Locked? || p.Flipped? || p.Failed? || p.Releasing? }

  predicate NoExpiry(acts: seq<Action>) { forall i :: 0 <= i < |acts| ==> !acts[i].LockExpires? }

  /** No run, with or without expiry, has two requests of a payment inside at once. */
  ghost predicate LockExcludes(key: KeyOf, expires: bool) {
    forall acts, p :: (expires || NoExpiry(acts)) ==> OneInside(Run(key, START, acts), p)
  }

  predicate OneInside(st: State, p: int) { Count(st.requests, p, InSection) <= 1 }

  predicate Holds(st: State, p: int) { Count(st.requests, p, InSection) <= (if p in st.locks then 1 else 0) }

  /** A move that enters takes the payment's lock, and one that leaves may delete it. */
  lemma MoveHolds(key: KeyOf, st: State, a: Action, p: int)
    requires Moves(key, st, a)
    ensures var st', x := Step(key, st, a), st.requests[a.r];
            && |st'.requests| == |st.requests|
            && var y := st'.requests[a.r];
            && (x.payment != p ==> (p in st'.locks <==> p in st.locks))
            && (x.payment == p && !InSection(x.phase) && InSection(y.phase) ==> p !in st.locks && p in st'.locks)
            && (x.payment == p && InSection(x.phase) == InSection(y.phase) ==> (p in st'.locks <==> p in st.locks))
  {
  }

  lemma StepHolds(key: KeyOf, st: State, a: Action, p: int)
    requires Holds(st, p) && !a.LockExpires?
    ensures Holds(Step(key, st, a), p)
  {
    hide Count, Step;
    var st' := Step(key, st, a);
    if a.Arrive? {
      Arriving(key, st, a);
      CountAppend(st.requests, Request(a.payment, a.tag, Arrived), p, InSection);
    } else if Moves(key, st, a) {
      MoveFrame(key, st, a);
      MoveHolds(key, st, a, p);
      CountUpdate(st.requests, a.r, st'.requests[a.r], p, InSection);
    } else {
      IdleKeepsLocks(key, st, a);
    }
  }

  lemma IdleKeepsLocks(key: KeyOf, st: State, a: Action)
    requires !a.Arrive? && !a.LockExpires? && !Moves(key, st, a)
    ensures Step(key, st, a).requests == st.requests && Step(key, st, a).locks == st.locks
  {
  }

  lemma {:induction false} RunHolds(key: KeyOf, st: State, acts: seq<Action>, p: int)
    requires Holds(st, p) && NoExpiry(acts)
    ensures Holds(Run(key, st, acts), p)
    decreases acts
  {
    hide Holds, Step;
    if acts != [] {
      StepHolds(key, st, acts[0], p);
      RunHolds(key, Step(key, st, acts[0]), acts[1..], p);
    }
  }

  /** The lock expires under a slow request, and a second one enters. */
  lemma ExpiryAdmitsTwo(key: KeyOf, p: int) returns (acts: seq<Action>)
    ensures !OneInside(Run(key, START, acts), p)
  {
    hide Run, Count;
    var first := [Arrive(p, 0), Read(0, true), Acquire(0), LockExpires(p)];
    var second := [Arrive(p, 0), Read(1, true), Acquire(1)];
    acts := first + second;
    RunConcat(key, START, first, second);
    FourSteps(key, START, first[0], first[1], first[2], first[3]);
    var one := Request(p, 0, Locked);
    var st := Run(key, START, first);
    assert st.requests == [one] && p !in st.down && p !in st.reversed && p !in st.locks;
    FourSteps(key, st, second[0], second[1], second[2], second[2]);
    var st' := Run(key, st, second);
    assert st'.requests == [one, one];
    CountAppend([], one, p, InSection);
    CountAppend([one], one, p, InSection);
    assert [one] + [one] == [one, one] && [] + [one] == [one];
  }

  /** The cooldown lock keeps a payment's requests apart exactly as long as it cannot expire. */
  lemma LockExcludesIffItNeverExpires(key: KeyOf, expires: bool)
    ensures LockExcludes(key, expires) <==> !expires
  {
    hide Run, OneInside;
    if expires {
      var acts := ExpiryAdmitsTwo(key, 1);
      assert !OneInside(Run(key, START, acts), 1);
    } else {
      forall acts, p | NoExpiry(acts) ensures OneInside(Run(key, START, acts), p) {
        RunHolds(key, START, acts, p);
        HoldsIsOneInside(Run(key, START, acts), p);
      }
    }
  }

  lemma HoldsIsOneInside(st: State, p: int)
    ensures Holds(st, p) ==> OneInside(st, p)
  {
  }

  /** Every request of a payment has finished, none with a refund, and no restore was lost. */
  predicate Quiet(st: State, p: int) {
    && st.revoked[p] == 0
    && forall i :: 0 <= i < |st.requests| && st.requests[i].payment == p ==>
      st.requests[i].phase in {Done(Refused), Done(Restored)}
  }

  lemma {:induction false} NoClaims(xs: seq<Request>, p: int)
    requires forall i :: 0 <= i < |xs| ==> xs[i].payment != p || !Claims(xs[i].phase)
    ensures Count(xs, p, Claims) == 0
  {
    if xs != [] {
      NoClaims(xs[1..], p);
    }
  }

  /** Failed attempts never use up a legitimate refund: afterwards the flag is up again. */
  lemma FailuresCostNothing(key: KeyOf, acts: seq<Action>, p: int)
    requires Quiet(Run(key, START, acts), p)
    ensures p !in Run(key, START, acts).down
  {
    hide Run;
    OneRefundIsConserved(key, acts, p);
    NoClaims(Run(key, START, acts).requests, p);
  }

  // ---------------------------------------------------------------------------------------------
  // Who gets past the eligibility check
  // ---------------------------------------------------------------------------------------------

  /** A request that was found eligible; one that ended refused may or may not have been. */
  predicate PastCheck(p: Phase) { p != Arrived && p != Done(Refused) }

  /** The request was checked inside the refund window, with its payment's flag up and its status succeeded. */
  ghost predicate CheckedAt(key: KeyOf, acts: seq<Action>, r: nat, m: nat) {
    && m < |acts| && acts[m] == Read(r, true)
    && var st := Run(key, START, acts[..m]);
       && r < |st.requests| && st.requests[r].payment !in st.down && st.requests[r].payment !in st.reversed
  }

  lemma OnlyReadPasses(key: KeyOf, st: State, a: Action, r: nat)
    requires r < |Step(key, st, a).requests| && PastCheck(Step(key, st, a).requests[r].phase)
    ensures r < |st.requests|
    ensures PastCheck(st.requests[r].phase) ||
      (a == Read(r, true) && st.requests[r].payment !in st.down && st.requests[r].payment !in st.reversed)
  {
  }

  /** In every run nobody reaches the lock, the flag or Stripe outside the window or without a refundable payment. */
  lemma {:induction false} PassedWasEligible(key: KeyOf, acts: seq<Action>, r: nat) returns (m: nat)
    requires r < |Run(key, START, acts).requests| && PastCheck(Run(key, START, acts).requests[r].phase)
    ensures CheckedAt(key, acts, r, m)
    decreases |acts|
  {
    hide Step, PastCheck;
    var n := |acts| - 1;
    assert acts != [];
    var init, a := acts[..n], acts[n];
    assert acts == init + [a];
    RunConcat(key, START, init, [a]);
    FourSteps(key, Run(key, START, init), a, a, a, a);
    OnlyReadPasses(key, Run(key, START, init), a, r);
    if PastCheck(Run(key, START, init).requests[r].phase) {
      m := PassedWasEligible(key, init, r);
      assert init[..m] == acts[..m];
    } else {
      m := n;
    }
  }

  lemma ReversedStays(key: KeyOf, st: State, a: Action, p: int)
    requires p in st.reversed
    ensures p in Step(key, st, a).reversed
  {
  }

  /** No request for the payment that is still to come has got past the check. */
  predicate NewOnesStopped(st: State, p: int, from: nat) {
    p in st.reversed && forall i :: from <= i < |st.requests| && st.requests[i].payment == p ==> !PastCheck(st.requests[i].phase)
  }

  lemma StoppedStep(key: KeyOf, st: State, a: Action, p: int, from: nat)
    requires NewOnesStopped(st, p, from) && from <= |st.requests|
    ensures NewOnesStopped(Step(key, st, a), p, from) && |st.requests| <= |Step(key, st, a).requests|
  {
    hide Step, PastCheck;
    var st' := Step(key, st, a);
    ReversedStays(key, st, a, p);
    PaymentsStay(key, st, a);
    forall i | from <= i < |st'.requests| && st'.requests[i].payment == p ensures !PastCheck(st'.requests[i].phase) {
      if PastCheck(st'.requests[i].phase) {
        OnlyReadPasses(key, st, a, i);
      }
    }
  }

  lemma PaymentsStay(key: KeyOf, st: State, a: Action)
    ensures |st.requests| <= |Step(key, st, a).requests|
    ensures forall i :: 0 <= i < |st.requests| ==> Step(key, st, a).requests[i].payment == st.requests[i].payment
  {
    hide Step;
    if a.Arrive? {
      Arriving(key, st, a);
    } else if Moves(key, st, a) {
      MoveFrame(key, st, a);
    } else if a.CallStripe? {
      assert a.r < |st.requests| ==> Step(key, st, a).requests == st.requests;
      if !At(st, a.r, Flipped) {
        IdleCall(key, st, a);
      }
    } else {
      Unmoved(key, st, a);
    }
  }

  /** Once Stripe reports a payment as refunded, no request for it that arrives later is ever found eligible. */
  lemma {:induction false} RefundedIsFinal(key: KeyOf, st: State, acts: seq<Action>, p: int, from: nat)
    requires NewOnesStopped(st, p, from) && from <= |st.requests|
    ensures NewOnesStopped(Run(key, st, acts), p, from)
    decreases acts
  {
    hide Step, NewOnesStopped;
    if acts != [] {
      StoppedStep(key, st, acts[0], p, from);
      RefundedIsFinal(key, Step(key, st, acts[0]), acts[1..], p, from);
    }
  }

  lemma ChargeRefundedStops(key: KeyOf, st: State, acts: seq<Action>, p: int)
    ensures p in Step(key, st, ChargeRefunded(p)).down
    ensures NewOnesStopped(Run(key, Step(key, st, ChargeRefunded(p)), acts), p, |st.requests|)
  {
    hide Run;
    RefundedIsFinal(key, Step(key, st, ChargeRefunded(p)), acts, p, |st.requests|);
  }
}

/**
  One user's subscription and its shadow at Stripe (src/modules/subscriptions and the subscription events
  of src/modules/webhooks/stripe-handlers.ts): every request changes Stripe first and the row second; a
  refused request changes neither.
 */
module Subscriptions {
  import opened Options

  datatype Plan = Free | Pro
  datatype Cycle = Monthly | Yearly
  datatype Status = Active | Cancelled | Expired

  /** `freeNext` is a scheduled downgrade to Free, the only plan that is ever scheduled. */
  datatype Subscription = Subscription(
    plan: Plan, cycle: Option<Cycle>, status: Status, linked: bool, freeNext: bool, nextCycle: Option<Cycle>)

  /**
    The Stripe subscription the row is linked to: the cycle it bills, its cancel_at_period_end flag, and
    whether a Stripe schedule will make it monthly at the end of the period.
   */
  datatype Remote = NoRemote | Running(cycle: Cycle, cancelAtPeriodEnd: bool, monthlyNext: bool) | Ended

  datatype Account = Account(sub: Option<Subscription>, remote: Remote)

  datatype Reply =
    | Updated | CheckoutUrl | AlreadyActivated | NoSubscription | SubscriptionExpired | InvalidUpgrade
    | NoChangeToApply | DowngradeAlreadyScheduled | CannotDowngradeFromFree | CannotCancelFree | StripeRefused

  datatype Request =
    | ActivateFree
    | Upgrade(cycle: Cycle)
    | DowngradeToFree
    | DowngradeToMonthly
    | Cancel
    | RefundGranted
    | CheckoutCompleted(cycle: Cycle)
    | RemoteUpdated
    | RemoteDeleted
    | Renewed

  const FREE := Subscription(Free, None, Active, false, false, None)

  function Pending(s: Subscription): bool { s.status == Cancelled || s.freeNext || s.nextCycle.Some? }

  function Cleared(s: Subscription): Subscription { s.(status := Active, freeNext := false, nextCycle := None) }

  predicate Bills(s: Subscription, c: Cycle) { s.cycle.Some? && s.cycle.value.Yearly? == c.Yearly? }

  function Ending(remote: Remote, flag: bool): Remote
    requires remote.Running?
  {
    remote.(cancelAtPeriodEnd := flag)
  }

  function UpgradeTo(a: Account, cycle: Cycle): (Account, Reply) {
    if a.sub.None? then (a, NoSubscription)
    else
      var s := a.sub.value;
      if s.status == Expired || s.plan == Free || s.cycle.None? then (a, CheckoutUrl)
      else if s.cycle.value == Yearly && cycle == Monthly then (a, InvalidUpgrade)
      else if s.cycle.value == cycle && !Pending(s) then (a, NoChangeToApply)
      else if !a.remote.Running? then (a, StripeRefused)
      else if s.cycle.value == cycle then (Account(Some(Cleared(s)), Ending(a.remote, false)), Updated)
      else (Account(Some(Cleared(s).(cycle := Some(Yearly))), Ending(a.remote, false).(cycle := Yearly)), Updated)
  }

  /** Whether a downgrade is refused before Stripe is asked. */
  function DowngradeRefusal(s: Subscription, toFree: bool): Option<Reply> {
    if s.status == Expired then Some(SubscriptionExpired)
    else if s.freeNext || s.nextCycle.Some? then Some(DowngradeAlreadyScheduled)
    else if s.plan == Free then Some(CannotDowngradeFromFree)
    else if !toFree && Bills(s, Monthly) then Some(NoChangeToApply)
    else None
  }

  /** `again` says whether Stripe takes a second schedule for one subscription. */
  function Downgrade(again: bool, a: Account, toFree: bool): (Account, Reply) {
    if a.sub.None? then (a, NoSubscription)
    else
      var s := a.sub.value;
      if DowngradeRefusal(s, toFree).Some? then (a, DowngradeRefusal(s, toFree).value)
      else if !a.remote.Running? then (a, StripeRefused)
      else if toFree then (Account(Some(s.(freeNext := true, nextCycle := None)), Ending(a.remote, true)), Updated)
      else if a.remote.monthlyNext && !again then (a, StripeRefused)
      else (Account(Some(s.(nextCycle := Some(Monthly))), a.remote.(cycle := Yearly, monthlyNext := true)), Updated)
  }

  function CancelAtEnd(a: Account): (Account, Reply) {
    if a.sub.None? then (a, NoSubscription)
    else
      var s := a.sub.value;
      if s.plan == Free then (a, CannotCancelFree)
      else if s.status == Expired then (a, SubscriptionExpired)
      else if s.status == Cancelled then (a, Updated)
      else if !a.remote.Running? then (a, StripeRefused)
      else (Account(Some(s.(status := Cancelled)), Ending(a.remote, true)), Updated)
  }

  /** After a refund; a subscription that has ended at Stripe refuses the update and nothing changes. */
  function ScheduleFree(a: Account): Account {
    if a.sub.Some? && a.sub.value.linked && a.sub.value.plan != Free && a.remote.Running?
    then Account(Some(a.sub.value.(freeNext := true, nextCycle := None)), Ending(a.remote, true))
    else a
  }

  /** The customer.subscription.updated event copies the flag, and only it, into an active or cancelled status. */
  function Synced(a: Account): Account {
    if a.sub.None? || !a.sub.value.linked || !a.remote.Running? then a
    else
      var s := a.sub.value;
      if a.remote.cancelAtPeriodEnd && s.status == Active then a.(sub := Some(s.(status := Cancelled)))
      else if !a.remote.cancelAtPeriodEnd && s.status == Cancelled then a.(sub := Some(s.(status := Active)))
      else a
  }

  /** The customer.subscription.deleted event applies a scheduled downgrade or expires the row. */
  function Deleted(a: Account): Account {
    if a.sub.None? || !a.sub.value.linked || !a.remote.Running? then a
    else if a.sub.value.freeNext then Account(Some(FREE), NoRemote)
    else Account(Some(a.sub.value.(status := Expired)), Ended)
  }

  /** A new period at Stripe carries out its schedule; no handler writes the new cycle into the row. */
  function NextPeriod(a: Account): Account {
    if a.remote.Running? && a.remote.monthlyNext && !a.remote.cancelAtPeriodEnd
    then a.(remote := a.remote.(cycle := Monthly, monthlyNext := false))
    else a
  }

  function CheckedOut(cycle: Cycle): Account {
    Account(Some(Subscription(Pro, Some(cycle), Active, true, false, None)), Running(cycle, false, false))
  }

  function Handle(again: bool, a: Account, r: Request): (Account, Reply) {
    match r
    case ActivateFree => if a.sub.Some? then (a, AlreadyActivated) else (Account(Some(FREE), NoRemote), Updated)
    case Upgrade(cycle) => UpgradeTo(a, cycle)
    case DowngradeToFree => Downgrade(again, a, true)
    case DowngradeToMonthly => Downgrade(again, a, false)
    case Cancel => CancelAtEnd(a)
    case RefundGranted => (ScheduleFree(a), Updated)
    case CheckoutCompleted(cycle) => (CheckedOut(cycle), Updated)
    case RemoteUpdated => (Synced(a), Updated)
    case RemoteDeleted => (Deleted(a), Updated)
    case Renewed => (NextPeriod(a), Updated)
  }

  function Run(again: bool, a: Account, rs: seq<Request>): Account
    decreases rs
  {
    if rs == [] then a else Run(again, Handle(again, a, rs[0]).0, rs[1..])
  }

  const NEW := Account(None, NoRemote)

  // ---------------------------------------------------------------------------------------------
  // Invariants
  // ---------------------------------------------------------------------------------------------

  /** Free carries nothing scheduled and no cycle; Pro always has a cycle, never both schedules. */
  predicate RowOk(s: Subscription) {
    && !(s.freeNext && s.nextCycle.Some?)
    && (s.plan == Free ==> s == FREE)
    && (s.plan == Pro ==> s.cycle.Some? && s.linked)
    && (s.nextCycle.Some? ==> s.nextCycle == Some(Monthly) && Bills(s, Yearly))
  }

  /**
    A running Stripe subscription will end exactly when the row says cancelled or downgrading, it is
    monthly for good when the row is monthly, and a scheduled monthly cycle is scheduled at Stripe or
    already billed.
   */
  predicate InSync(a: Account) {
    match a.sub
    case None => a.remote == NoRemote
    case Some(s) =>
      && (a.remote == NoRemote <==> s.plan == Free)
      && (a.remote == Ended <==> s.status == Expired)
      && (a.remote.Running? ==>
            && (a.remote.cancelAtPeriodEnd <==> s.status == Cancelled || s.freeNext)
            && (Bills(s, Monthly) ==> a.remote.cycle == Monthly && !a.remote.monthlyNext)
            && (s.nextCycle.Some? ==> a.remote.monthlyNext || a.remote.cycle == Monthly))
  }

  predicate Consistent(a: Account) { InSync(a) && (a.sub.Some? ==> RowOk(a.sub.value)) }

  lemma HandleKeeps(again: bool, a: Account, r: Request)
    requires Consistent(a)
    ensures Consistent(Handle(again, a, r).0)
  {
  }

  /** Over any sequence of requests and events, in any order. */
  lemma {:induction false} EveryRunInSync(again: bool, a: Account, rs: seq<Request>)
    requires Consistent(a)
    ensures Consistent(Run(again, a, rs))
    decreases rs
  {
    hide Consistent, Handle;
    if rs != [] {
      HandleKeeps(again, a, rs[0]);
      EveryRunInSync(again, Handle(again, a, rs[0]).0, rs[1..]);
    }
  }

  // ---------------------------------------------------------------------------------------------
  // Billing cycle and schedule
  // ---------------------------------------------------------------------------------------------

  /** Stripe bills the cycle of the row, and will change it exactly when the row says so. */
  predicate InStep(a: Account) {
    && Consistent(a)
    && (a.remote.Running? ==>
          Bills(a.sub.value, a.remote.cycle) && (a.remote.monthlyNext <==> a.sub.value.nextCycle.Some?))
  }

  /**
    With a change to monthly scheduled: taking it back or a granted refund forgets the schedule that
    Stripe keeps, and a new period carries it out without telling the row.
   */
  predicate Parts(s: Subscription, r: Request) {
    && s.nextCycle.Some? && s.status != Expired
    && (r == Upgrade(Yearly) || r == RefundGranted || (r == Renewed && s.status == Active))
  }

  predicate PartsNow(a: Account, r: Request) { a.sub.Some? && Parts(a.sub.value, r) }

  lemma StepIff(again: bool, a: Account, r: Request)
    requires InStep(a)
    ensures InStep(Handle(again, a, r).0) <==> !PartsNow(a, r)
  {
  }

  ghost predicate AlwaysInStep(again: bool, a: Account, rs: seq<Request>) {
    forall n :: 0 <= n <= |rs| ==> InStep(Run(again, a, rs[..n]))
  }

  ghost predicate NeverParts(again: bool, a: Account, rs: seq<Request>) {
    forall i :: 0 <= i < |rs| ==> !PartsNow(Run(again, a, rs[..i]), rs[i])
  }

  lemma RunPrefix(again: bool, a: Account, rs: seq<Request>, n: nat)
    requires 0 < n <= |rs|
    ensures Run(again, a, rs[..n]) == Run(again, Handle(again, a, rs[0]).0, rs[1..][..n-1])
  {
    assert rs[..n][1..] == rs[1..][..n-1];
  }

  /**
    Row and Stripe agree about cycle and schedule throughout a run exactly when no upgrade to yearly, no
    granted refund and no new period meets a scheduled change to monthly.
   */
  lemma {:induction false} AlwaysInStepIff(again: bool, a: Account, rs: seq<Request>)
    requires InStep(a)
    ensures AlwaysInStep(again, a, rs) <==> NeverParts(again, a, rs)
    decreases rs
  {
    hide InStep, PartsNow, Handle;
    assert Run(again, a, rs[..0]) == a;
    if rs != [] {
      var b := Handle(again, a, rs[0]).0;
      StepIff(again, a, rs[0]);
      RunPrefix(again, a, rs, 1);
      assert Run(again, a, rs[..1]) == b;
      if InStep(b) {
        AlwaysInStepIff(again, b, rs[1..]);
        forall n | 0 < n <= |rs| ensures Run(again, a, rs[..n]) == Run(again, b, rs[1..][..n-1]) {
          RunPrefix(again, a, rs, n);
        }
        forall n | 0 <= n < |rs| ensures Run(again, b, rs[1..][..n]) == Run(again, a, rs[..n+1]) {
          RunPrefix(again, a, rs, n + 1);
        }
        assert AlwaysInStep(again, b, rs[1..]) <==> AlwaysInStep(again, a, rs);
        assert NeverParts(again, b, rs[1..]) <==> NeverParts(again, a, rs);
      }
    }
  }

  // ---------------------------------------------------------------------------------------------
  // A lost row update
  // ---------------------------------------------------------------------------------------------

  /** The user's requests, which change Stripe before the row. */
  predicate StripeFirst(r: Request) { r.Upgrade? || r.DowngradeToFree? || r.DowngradeToMonthly? || r.Cancel? || r.RefundGranted? }

  /** Stripe has carried the request out, the row update after it was lost. */
  function HalfDone(again: bool, a: Account, r: Request): Account { a.(remote := Handle(again, a, r).0.remote) }

  /** The row's own schedule or cycle would have had to change, which no event of Stripe's tells. */
  predicate Unheard(s: Subscription, r: Request) {
    && s.plan == Pro && s.status != Expired
    && match r
       case Upgrade(c) => (Bills(s, Monthly) && c == Yearly) || (Bills(s, c) && s.freeNext)
       case DowngradeToMonthly => Bills(s, Yearly) && !s.freeNext && s.nextCycle.None?
       case _ => false
  }

  predicate UnheardNow(a: Account, r: Request) { a.sub.Some? && Unheard(a.sub.value, r) }

  /**
    Stripe's own event brings a half-done account back into step exactly when the lost update was not a
    change to yearly, not the clearing of a scheduled downgrade to Free, and not a schedule to monthly.
   */
  lemma EchoHealsIff(again: bool, a: Account, r: Request)
    requires InStep(a) && StripeFirst(r)
    ensures InStep(Synced(HalfDone(again, a, r))) <==> !UnheardNow(a, r)
  {
  }

  /** The retry finds a schedule at Stripe that the row does not know. */
  predicate SecondSchedule(a: Account, r: Request) { r.DowngradeToMonthly? && UnheardNow(a, r) }

  lemma RetryAtOnce(again: bool, a: Account, r: Request)
    requires InStep(a) && StripeFirst(r)
    ensures Synced(Handle(again, HalfDone(again, a, r), r).0) == Synced(Handle(again, a, r).0)
      <==> again || !SecondSchedule(a, r)
  {
  }

  lemma RetryAfterEcho(again: bool, a: Account, r: Request)
    requires InStep(a) && StripeFirst(r)
    ensures Synced(Handle(again, Synced(HalfDone(again, a, r)), r).0) == Synced(Handle(again, a, r).0)
      <==> again || !SecondSchedule(a, r)
  {
  }

  function Echoes(n: nat): seq<Request> { if n == 0 then [] else [RemoteUpdated] + Echoes(n - 1) }

  /**
    Sending the request again completes it, however many events came in between, except for a schedule to
    monthly when Stripe does not take a second one.
   */
  lemma RetryCompletesIff(again: bool, a: Account, r: Request, n: nat)
    requires InStep(a) && StripeFirst(r)
    ensures Run(again, HalfDone(again, a, r), Echoes(n) + [r, RemoteUpdated]) == Run(again, a, [r, RemoteUpdated])
      <==> again || !SecondSchedule(a, r)
  {
    hide Handle, InStep, Synced, HalfDone, SecondSchedule;
    var half := HalfDone(again, a, r);
    TwoRequests(again, a, r);
    RetryAtOnce(again, a, r);
    RetryAfterEcho(again, a, r);
    EchoesAreOne(again, half, n, [r, RemoteUpdated]);
    TwoRequests(again, half, r);
    TwoRequests(again, Synced(half), r);
  }

  lemma TwoRequests(again: bool, a: Account, r: Request)
    ensures Run(again, a, [r, RemoteUpdated]) == Synced(Handle(again, a, r).0)
  {
    assert [r, RemoteUpdated][1..] == [RemoteUpdated] && [RemoteUpdated][1..] == [];
    assert Run(again, a, [r, RemoteUpdated]) == Run(again, Handle(again, a, r).0, [RemoteUpdated]);
  }

  lemma {:induction false} EchoesAreOne(again: bool, a: Account, n: nat, rest: seq<Request>)
    ensures Run(again, a, Echoes(n) + rest) == Run(again, if n == 0 then a else Synced(a), rest)
    decreases n
  {
    if n == 0 {
      assert Echoes(0) + rest == rest;
    } else {
      assert (Echoes(n) + rest)[1..] == Echoes(n - 1) + rest;
      EchoesAreOne(again, Synced(a), n - 1, rest);
      assert Synced(Synced(a)) == Synced(a);
    }
  }

  // ---------------------------------------------------------------------------------------------
  // Taking everything back
  // ---------------------------------------------------------------------------------------------

  /** Requests that only announce an end or a change, the event that echoes them, and new periods. */
  predicate Announces(r: Request) {
    r.DowngradeToFree? || r.DowngradeToMonthly? || r.Cancel? || r.RefundGranted? || r.RemoteUpdated? || r.Renewed?
  }

  /** Some change to monthly in the run was granted. */
  predicate GrantsMonthly(again: bool, a: Account, rs: seq<Request>)
    decreases rs
  {
    rs != [] &&
    ((rs[0] == DowngradeToMonthly && Handle(again, a, rs[0]).1 == Updated)
     || GrantsMonthly(again, Handle(again, a, rs[0]).0, rs[1..]))
  }

  /** Only the pending parts of the row, Stripe's flag, and its cycle and schedule once granted, differ. */
  predicate Pended(a: Account, cycle: Cycle, granted: bool) {
    && Consistent(a) && a.remote.Running? && Cleared(a.sub.value) == CheckedOut(cycle).sub.value
    && (granted <==> a.remote.cycle != cycle || a.remote.monthlyNext)
    && (granted ==> a.sub.value.nextCycle.Some? || a.sub.value.freeNext)
  }

  lemma AnnouncePends(again: bool, a: Account, r: Request, cycle: Cycle, granted: bool)
    requires Pended(a, cycle, granted) && Announces(r)
    ensures Pended(Handle(again, a, r).0, cycle, granted || (r == DowngradeToMonthly && Handle(again, a, r).1 == Updated))
  {
    HandleKeeps(again, a, r);
  }

  lemma {:induction false} AnnouncementsPend(again: bool, a: Account, rs: seq<Request>, cycle: Cycle, granted: bool)
    requires Pended(a, cycle, granted) && forall r :: r in rs ==> Announces(r)
    ensures Pended(Run(again, a, rs), cycle, granted || GrantsMonthly(again, a, rs))
    decreases rs
  {
    hide Pended, Handle, Announces;
    if rs != [] {
      var now := rs[0] == DowngradeToMonthly && Handle(again, a, rs[0]).1 == Updated;
      AnnouncePends(again, a, rs[0], cycle, granted);
      AnnouncementsPend(again, Handle(again, a, rs[0]).0, rs[1..], cycle, granted || now);
    }
  }

  /**
    Upgrading to the current cycle cleans the row after any mixture of cancellations, downgrades, granted
    refunds, echoed events and new periods. The account is what it was exactly when no change to monthly
    was granted: Stripe's schedule is never released.
   */
  lemma UpgradeTakesBackIff(again: bool, cycle: Cycle, rs: seq<Request>)
    requires forall r :: r in rs ==> Announces(r)
    ensures var clean, b := CheckedOut(cycle), Run(again, CheckedOut(cycle), rs);
            var (back, reply) := UpgradeTo(b, cycle);
            && back.sub == clean.sub && (reply == NoChangeToApply <==> b == clean)
            && (back == clean <==> !GrantsMonthly(again, clean, rs))
  {
    hide Run, GrantsMonthly;
    AnnouncementsPend(again, CheckedOut(cycle), rs, cycle, false);
  }

  /** The shortest such run: the row is clean, and Stripe still goes monthly at the end of the period. */
  lemma ScheduleSurvivesUpgrade(again: bool)
    ensures UpgradeTo(Run(again, CheckedOut(Yearly), [DowngradeToMonthly]), Yearly).0
      == CheckedOut(Yearly).(remote := Running(Yearly, false, true))
  {
    assert [DowngradeToMonthly][1..] == [];
  }

  // ---------------------------------------------------------------------------------------------
  // What a granted request brings about
  // ---------------------------------------------------------------------------------------------

  /** Stripe will end the subscription when the period does. */
  predicate EndIsComing(a: Account) { a.sub.Some? && a.remote.Running? && a.remote.cancelAtPeriodEnd }

  /** An active subscription billed on this cycle with no change ahead, in the row and at Stripe's flag. */
  predicate GoesOn(a: Account, cycle: Cycle) {
    && a.sub.Some? && a.sub.value.plan == Pro && a.sub.value.status == Active && a.sub.value.cycle == Some(cycle)
    && !a.sub.value.freeNext && a.sub.value.nextCycle.None? && a.remote.Running? && !a.remote.cancelAtPeriodEnd
  }

  /** What the answer Updated means, request by request. */
  lemma GrantedDoes(again: bool, a: Account, r: Request)
    requires Consistent(a) && Handle(again, a, r).1 == Updated
    ensures var b := Handle(again, a, r).0;
            && (r == Cancel ==> EndIsComing(b) && b.sub.value.status == Cancelled)
            && (r == DowngradeToFree ==> EndIsComing(b) && b.sub.value.freeNext)
            && (r == DowngradeToMonthly ==>
                  && b.sub.Some? && b.sub.value.nextCycle == Some(Monthly)
                  && b.remote.Running? && b.remote.cycle == Yearly && b.remote.monthlyNext)
            && (r == RefundGranted && a.remote.Running? ==> EndIsComing(b) && b.sub.value.freeNext)
            && (r.Upgrade? ==> GoesOn(b, r.cycle) && (InStep(a) && a.sub.value.nextCycle.None? ==> b.remote.cycle == r.cycle))
            && (r.CheckoutCompleted? ==> GoesOn(b, r.cycle) && b.remote == Running(r.cycle, false, false))
            && (r == ActivateFree ==> b == Account(Some(FREE), NoRemote) && a.sub.None?)
  {
  }

  /** An announced end stays announced, and a downgrade to Free stays scheduled with it. */
  lemma AnnouncedEndStays(again: bool, a: Account, r: Request)
    requires Consistent(a) && EndIsComing(a) && Announces(r)
    ensures var b := Handle(again, a, r).0;
            Consistent(b) && EndIsComing(b) && (a.sub.value.freeNext ==> b.sub.value.freeNext)
  {
    HandleKeeps(again, a, r);
  }

  lemma {:induction false} EndStays(again: bool, a: Account, rs: seq<Request>)
    requires Consistent(a) && EndIsComing(a) && forall r :: r in rs ==> Announces(r)
    ensures var b := Run(again, a, rs);
            Consistent(b) && EndIsComing(b) && (a.sub.value.freeNext ==> b.sub.value.freeNext)
    decreases rs
  {
    hide Consistent, Handle, Announces;
    if rs != [] {
      AnnouncedEndStays(again, a, rs[0]);
      EndStays(again, Handle(again, a, rs[0]).0, rs[1..]);
    }
  }

  /** A granted cancellation, downgrade to Free or refund of a running subscription. */
  predicate Ends(a: Account, r: Request) { r == Cancel || r == DowngradeToFree || (r == RefundGranted && a.remote.Running?) }

  /**
    After it, whatever else is announced, echoed or renewed, Stripe's end event leaves the Free plan if a
    downgrade was scheduled and an expired row otherwise, and Stripe no longer runs anything.
   */
  lemma GrantedEndEnds(again: bool, a: Account, r: Request, rs: seq<Request>)
    requires Consistent(a) && Ends(a, r) && Handle(again, a, r).1 == Updated && forall x :: x in rs ==> Announces(x)
    ensures var b := Run(again, Handle(again, a, r).0, rs);
            var e := Handle(again, b, RemoteDeleted).0;
            && EndIsComing(b) && !e.remote.Running?
            && (r != Cancel ==> e.sub == Some(FREE))
            && e.sub.Some? && (e.sub == Some(FREE) || e.sub.value.status == Expired)
            && (e.sub == Some(FREE) <==> b.sub.value.freeNext)
  {
    hide Run;
    GrantedDoes(again, a, r);
    HandleKeeps(again, a, r);
    EndStays(again, Handle(again, a, r).0, rs);
  }

  // ---------------------------------------------------------------------------------------------
  // The row as the service updates it
  // ---------------------------------------------------------------------------------------------

  class SubscriptionStore {
    var sub: Option<Subscription>
    var remote: Remote
    /** Whether Stripe takes a second schedule for one subscription. */
    const again: bool

    ghost function State(): Account
      reads this
    {
      Account(sub, remote)
    }

    ghost predicate Valid()
      reads this
    {
      Consistent(State())
    }

    constructor (again: bool)
      ensures Valid() && State() == NEW && this.again == again
    {
      sub, remote, this.again := None, NoRemote, again;
    }

    method UpgradeSubscription(cycle: Cycle) returns (reply: Reply)
      requires Valid()
      modifies this
      ensures Valid() && (State(), reply) == UpgradeTo(old(State()), cycle)
    {
      if sub.None? {
        return NoSubscription;
      }
      var s := sub.value;
      if s.status == Expired || s.plan == Free {
        return CheckoutUrl;
      }
      var current := s.cycle.value;
      if current == Monthly && cycle == Yearly {
        remote := remote.(cycle := Yearly, cancelAtPeriodEnd := false);
        sub := Some(s.(cycle := Some(Yearly), status := Active, freeNext := false, nextCycle := None));
        return Updated;
      }
      if current == Yearly && cycle == Monthly {
        return InvalidUpgrade;
      }
      if s.status == Cancelled || s.freeNext || s.nextCycle.Some? {
        remote := remote.(cancelAtPeriodEnd := false);
        sub := Some(s.(status := Active, freeNext := false, nextCycle := None));
        return Updated;
      }
      reply := NoChangeToApply;
    }

    method DowngradeSubscription(toFree: bool) returns (reply: Reply)
      requires Valid()
      modifies this
      ensures Valid() && (State(), reply) == Downgrade(again, old(State()), toFree)
    {
      if sub.None? {
        return NoSubscription;
      }
      var s := sub.value;
      if s.status == Expired {
        return SubscriptionExpired;
      }
      if s.freeNext || s.nextCycle.Some? {
        return DowngradeAlreadyScheduled;
      }
      if s.plan == Free {
        return CannotDowngradeFromFree;
      }
      if toFree {
        remote := remote.(cancelAtPeriodEnd := true);
        sub := Some(s.(freeNext := true, nextCycle := None));
        return Updated;
      }
      if s.cycle.value == Monthly {
        return NoChangeToApply;
      }
      if remote.monthlyNext && !again {
        return StripeRefused;
      }
      remote := remote.(cycle := Yearly, monthlyNext := true);
      sub := Some(s.(nextCycle := Some(Monthly)));
      reply := Updated;
    }

    method CancelSubscription() returns (reply: Reply)
      requires Valid()
      modifies this
      ensures Valid() && (State(), reply) == CancelAtEnd(old(State()))
    {
      if sub.None? {
        return NoSubscription;
      }
      var s := sub.value;
      if s.plan == Free {
        return CannotCancelFree;
      }
      if s.status == Expired {
        return SubscriptionExpired;
      }
      if s.status != Cancelled {
        remote := remote.(cancelAtPeriodEnd := true);
        sub := Some(s.(status := Cancelled));
      }
      reply := Updated;
    }

    /** Step 4 of a successful refund: revoke Pro at the period's end. */
    method ScheduleDowngrade()
      requires Valid()
      modifies this
      ensures Valid() && State() == ScheduleFree(old(State()))
    {
      if sub.Some? && sub.value.linked && sub.value.plan != Free && remote.Running? {
        remote := remote.(cancelAtPeriodEnd := true);
        sub := Some(sub.value.(freeNext := true, nextCycle := None));
      }
    }

    /** Onboarding on the free plan; a user has one row. */
    method CreateFreeSubscription() returns (reply: Reply)
      requires Valid()
      modifies this
      ensures Valid() && (State(), reply) == Handle(again, old(State()), ActivateFree)
    {
      if sub.Some? {
        return AlreadyActivated;
      }
      sub, remote := Some(FREE), NoRemote;
      reply := Updated;
    }

    /** A completed checkout creates the row or replaces it, linked to a new Stripe subscription. */
    method UpsertFromCheckout(cycle: Cycle)
      requires Valid()
      modifies this
      ensures Valid() && State() == Handle(again, old(State()), CheckoutCompleted(cycle)).0
    {
      remote := Running(cycle, false, false);
      sub := Some(Subscription(Pro, Some(cycle), Active, true, false, None));
    }

    /** Stripe's event after any change, lost row updates included: the flag goes into the status. */
    method SubscriptionUpdated()
      modifies this
      ensures State() == Synced(old(State())) && (old(Valid()) ==> Valid())
    {
      if sub.None? || !sub.value.linked || !remote.Running? {
        return;
      }
      if remote.cancelAtPeriodEnd && sub.value.status == Active {
        sub := Some(sub.value.(status := Cancelled));
      } else if !remote.cancelAtPeriodEnd && sub.value.status == Cancelled {
        sub := Some(sub.value.(status := Active));
      }
    }

    /** The end of the Stripe subscription: the scheduled downgrade, or expiry. */
    method SubscriptionDeleted()
      requires Valid()
      modifies this
      ensures Valid() && State() == Deleted(old(State()))
    {
      if sub.None? || !sub.value.linked || !remote.Running? {
        return;
      }
      if sub.value.freeNext {
        sub, remote := Some(FREE), NoRemote;
      } else {
        sub, remote := Some(sub.value.(status := Expired)), Ended;
      }
    }
  }
}

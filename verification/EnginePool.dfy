/** The pool of engine processes on the server (internal/engine/stockfish.go) as a transition
    system: any number of searches, cancellations, spawn and search failures and closings, in any
    interleaving. A mutex-guarded block and a channel operation are one step each. */
module EnginePool {
  import opened Text

  type Proc = nat

  /** Where a call of Analyze stands. */
  datatype Call =
    | Waiting                            // for a slot, or its cancellation
    | Spawning                           // took an empty slot
    | Searching(p: Proc)
    | Killing(p: Proc)                   // its search failed
    | Reaping(p: Proc)                   // took the process off the live set; will kill it
    | Returning(slot: Option<Proc>)      // about to give the slot back
    | Finished

  /** Where a call of Close stands; `snapshot` is what was live when it began. */
  datatype Closer =
    | Closing(snapshot: set<Proc>, todo: seq<Proc>)
    | ClosingReaping(snapshot: set<Proc>, p: Proc, todo: seq<Proc>)

  datatype State = State(
    instances: nat,
    idle: seq<Option<Proc>>,             // the channel, first in first out
    live: set<Proc>,
    calls: map<nat, Call>,
    closers: map<nat, Closer>,
    killed: multiset<Proc>,              // every killCmd of a registered process
    failed: set<Proc>,                   // every process whose search failed
    next: Proc)                          // names for new processes

  /** What NewStockfish leaves behind: one process, the other slots empty. */
  function Opened(instances: int): State {
    var n := if instances <= 0 then 2 else instances;
    State(n, [Some(0)] + seq(n - 1, (_: int) => None), {0}, map[], map[], multiset{}, {}, 1)
  }

  datatype Step =
    | Arrive(c: nat)
    | Checkout(c: nat)
    | Cancel(c: nat)
    | SpawnOk(c: nat)
    | SpawnFail(c: nat)
    | SearchOk(c: nat)
    | SearchFail(c: nat)
    | Untrack(c: nat)                    // kill: the guarded block
    | Reap(c: nat)                       // kill: killCmd
    | Return(c: nat)
    | CloseBegin(k: nat, order: seq<Proc>)
    | CloseUntrack(k: nat)
    | CloseReap(k: nat)

  predicate At(s: State, c: nat, call: Call) {
    c in s.calls && s.calls[c] == call
  }

  predicate Enabled(s: State, step: Step) {
    match step
    case Arrive(c) => c !in s.calls
    case Checkout(c) => At(s, c, Waiting) && s.idle != []
    case Cancel(c) => At(s, c, Waiting)
    case SpawnOk(c) => At(s, c, Spawning)
    case SpawnFail(c) => At(s, c, Spawning)
    case SearchOk(c) => c in s.calls && s.calls[c].Searching?
    case SearchFail(c) => c in s.calls && s.calls[c].Searching?
    case Untrack(c) => c in s.calls && s.calls[c].Killing?
    case Reap(c) => c in s.calls && s.calls[c].Reaping?
    case Return(c) => c in s.calls && s.calls[c].Returning? && |s.idle| < s.instances
    case CloseBegin(k, order) => k !in s.closers && (set p | p in order) == s.live
    case CloseUntrack(k) => k in s.closers && s.closers[k].Closing? && s.closers[k].todo != []
    case CloseReap(k) => k in s.closers && s.closers[k].ClosingReaping?
  }

  function Apply(s: State, step: Step): State
    requires Enabled(s, step)
  {
    match step
    case Arrive(c) => s.(calls := s.calls[c := Waiting])
    case Checkout(c) =>
      var slot := s.idle[0];
      s.(idle := s.idle[1..], calls := s.calls[c := if slot.Some? then Searching(slot.value) else Spawning])
    case Cancel(c) => s.(calls := s.calls[c := Finished])
    case SpawnOk(c) =>
      s.(calls := s.calls[c := Searching(s.next)], live := s.live + {s.next}, next := s.next + 1)
    case SpawnFail(c) => s.(calls := s.calls[c := Returning(None)])
    case SearchOk(c) => s.(calls := s.calls[c := Returning(Some(s.calls[c].p))])
    case SearchFail(c) =>
      s.(calls := s.calls[c := Killing(s.calls[c].p)], failed := s.failed + {s.calls[c].p})
    case Untrack(c) =>
      var p := s.calls[c].p;
      s.(live := s.live - {p}, calls := s.calls[c := if p in s.live then Reaping(p) else Returning(None)])
    case Reap(c) =>
      s.(killed := s.killed + multiset{s.calls[c].p}, calls := s.calls[c := Returning(None)])
    case Return(c) => s.(idle := s.idle + [s.calls[c].slot], calls := s.calls[c := Finished])
    case CloseBegin(k, order) => s.(closers := s.closers[k := Closing(s.live, order)])
    case CloseUntrack(k) =>
      var cl := s.closers[k];
      var p, rest := cl.todo[0], cl.todo[1..];
      var next := if p in s.live then ClosingReaping(cl.snapshot, p, rest) else Closing(cl.snapshot, rest);
      s.(live := s.live - {p}, closers := s.closers[k := next])
    case CloseReap(k) =>
      var cl := s.closers[k];
      s.(killed := s.killed + multiset{cl.p}, closers := s.closers[k := Closing(cl.snapshot, cl.todo)])
  }

  /** A run of the pool. */
  ghost predicate IsRun(instances: int, steps: seq<Step>, states: seq<State>) {
    && |states| == |steps| + 1 && states[0] == Opened(instances)
    && forall i :: 0 <= i < |steps| ==> Enabled(states[i], steps[i]) && states[i + 1] == Apply(states[i], steps[i])
  }

  // ---------- slots are conserved ----------

  /** The call has a slot checked out. */
  predicate Holds(call: Call) { !call.Waiting? && !call.Finished? }

  function Holders(s: State): set<nat> {
    set c | c in s.calls && Holds(s.calls[c])
  }

  /** Idle slots and checked-out slots add up to the number of instances. */
  predicate SlotsConserved(s: State) {
    |s.idle| + |Holders(s)| == s.instances
  }

  /** A call that takes a slot, keeps it or gives it back. */
  lemma SlotsAfter(s: State, s': State, c: nat, call: Call)
    requires SlotsConserved(s) && s'.calls == s.calls[c := call] && s'.instances == s.instances
    requires |s'.idle| + (if Holds(call) then 1 else 0)
      == |s.idle| + (if c in s.calls && Holds(s.calls[c]) then 1 else 0)
    ensures SlotsConserved(s')
  {
    assert Holders(s') == if Holds(call) then Holders(s) + {c} else Holders(s) - {c};
  }

  /** The call that a step moves on. */
  function CallOf(step: Step): Option<nat> {
    if step.CloseBegin? || step.CloseUntrack? || step.CloseReap? then None else Some(step.c)
  }

  lemma SlotsStep(s: State, step: Step)
    requires SlotsConserved(s) && Enabled(s, step)
    ensures SlotsConserved(Apply(s, step))
  {
    var s' := Apply(s, step);
    match CallOf(step)
    case None => assert Holders(s') == Holders(s);
    case Some(c) => SlotsAfter(s, s', c, s'.calls[c]);
  }

  /** Giving a slot back never has to wait. */
  lemma ReturnNeverBlocks(s: State, c: nat)
    requires SlotsConserved(s) && c in s.calls && s.calls[c].Returning?
    ensures Enabled(s, Return(c))
  {
    assert c in Holders(s);
  }

  // ---------- every process is in one place ----------

  /** The process a call occupies. */
  function Occupied(call: Call): Option<Proc> {
    match call
    case Searching(p) => Some(p)
    case Killing(p) => Some(p)
    case Returning(slot) => slot
    case _ => None
  }

  ghost predicate Occupies(s: State, c: nat, p: Proc) {
    c in s.calls && Occupied(s.calls[c]) == Some(p)
  }

  ghost predicate OnePlace(s: State) {
    && (forall i, j :: 0 <= i < j < |s.idle| && s.idle[i].Some? ==> s.idle[i] != s.idle[j])
    && (forall i, c: nat :: 0 <= i < |s.idle| && s.idle[i].Some? ==> !Occupies(s, c, s.idle[i].value))
    && (forall c: nat, d: nat, p: Proc :: Occupies(s, c, p) && Occupies(s, d, p) ==> c == d)
    && (forall i :: 0 <= i < |s.idle| && s.idle[i].Some? ==> s.idle[i].value < s.next)
    && (forall c: nat, p: Proc :: Occupies(s, c, p) ==> p < s.next)
  }

  /** No call takes anything it did not have. */
  lemma OnePlaceKept(s: State, s': State)
    requires OnePlace(s) && s'.idle == s.idle && s'.next >= s.next
    requires forall d: nat, p: Proc :: Occupies(s', d, p) ==> Occupies(s, d, p)
    ensures OnePlace(s')
  {
  }

  /** A call takes the first idle slot. */
  lemma OnePlaceTaken(s: State, s': State, c: nat)
    requires OnePlace(s) && s.idle != [] && s'.idle == s.idle[1..] && s'.next == s.next
    requires forall d: nat, p: Proc ::
      Occupies(s', d, p) <==> (d != c && Occupies(s, d, p)) || (d == c && s.idle[0] == Some(p))
    ensures OnePlace(s')
  {
  }

  /** A call starts a new process. */
  lemma OnePlaceSpawned(s: State, s': State, c: nat)
    requires OnePlace(s) && s'.idle == s.idle && s'.next == s.next + 1
    requires forall d: nat, p: Proc ::
      Occupies(s', d, p) <==> (d != c && Occupies(s, d, p)) || (d == c && p == s.next)
    ensures OnePlace(s')
  {
  }

  /** A call gives its slot back. */
  lemma OnePlaceReturned(s: State, s': State, c: nat, slot: Option<Proc>)
    requires OnePlace(s) && s'.idle == s.idle + [slot] && s'.next == s.next
    requires slot.Some? ==> Occupies(s, c, slot.value)
    requires forall d: nat, p: Proc :: Occupies(s', d, p) <==> d != c && Occupies(s, d, p)
    ensures OnePlace(s')
  {
  }

  lemma OnePlaceStep(s: State, step: Step)
    requires OnePlace(s) && Enabled(s, step)
    ensures OnePlace(Apply(s, step))
  {
    match step
    case Checkout(c) => OnePlaceTaken(s, Apply(s, step), c);
    case SpawnOk(c) => OnePlaceSpawned(s, Apply(s, step), c);
    case Return(c) => OnePlaceReturned(s, Apply(s, step), c, s.calls[c].slot);
    case _ => OnePlaceOther(s, step);
  }

  lemma OnePlaceOther(s: State, step: Step)
    requires OnePlace(s) && Enabled(s, step) && !step.Checkout? && !step.SpawnOk? && !step.Return?
    ensures OnePlace(Apply(s, step))
  {
    var s' := Apply(s, step);
    assert forall d: nat, p: Proc :: Occupies(s', d, p) ==> Occupies(s, d, p);
    OnePlaceKept(s, s');
  }

  // ---------- failed processes stay out ----------

  /** A process whose search failed is nowhere in the pool and in no search. */
  ghost predicate FailedStayOut(s: State) {
    && (forall i :: 0 <= i < |s.idle| && s.idle[i].Some? ==> s.idle[i].value !in s.failed)
    && (forall c :: c in s.calls && s.calls[c].Searching? ==> s.calls[c].p !in s.failed)
    && (forall c :: c in s.calls && s.calls[c].Returning? && s.calls[c].slot.Some? ==>
          s.calls[c].slot.value !in s.failed)
    && (forall p :: p in s.failed ==> p < s.next)
  }

  lemma FailedStep(s: State, step: Step)
    requires OnePlace(s) && FailedStayOut(s) && Enabled(s, step)
    ensures FailedStayOut(Apply(s, step))
  {
    match step
    case SearchFail(c) =>
      var p := s.calls[c].p;
      assert Occupies(s, c, p);
      assert forall d: nat :: Occupies(s, d, p) ==> d == c;
      assert forall d: nat :: d in s.calls && Occupied(s.calls[d]) == Some(p) ==> Occupies(s, d, p);
    case Return(c) =>
      forall i | 0 <= i < |Apply(s, step).idle| && Apply(s, step).idle[i].Some?
        ensures Apply(s, step).idle[i].value !in s.failed
      {
        if i < |s.idle| { assert Apply(s, step).idle[i] == s.idle[i]; }
      }
    case _ =>
  }

  // ---------- the live set is bounded ----------

  function IdleProcs(s: State): set<Proc> {
    set i | 0 <= i < |s.idle| && s.idle[i].Some? :: s.idle[i].value
  }

  function BusyProcs(s: State): set<Proc> {
    set c | c in s.calls && Occupied(s.calls[c]).Some? :: Occupied(s.calls[c]).value
  }

  /** Every live process sits in a slot. */
  ghost predicate LiveInSlots(s: State) {
    s.live <= IdleProcs(s) + BusyProcs(s)
  }

  lemma LiveStep(s: State, step: Step)
    requires LiveInSlots(s) && Enabled(s, step)
    ensures LiveInSlots(Apply(s, step))
  {
    var s' := Apply(s, step);
    forall p | p in s'.live ensures p in IdleProcs(s') || p in BusyProcs(s') {
      LiveStays(s, step, p);
    }
  }

  lemma LiveStays(s: State, step: Step, p: Proc)
    requires LiveInSlots(s) && Enabled(s, step) && p in Apply(s, step).live
    ensures p in IdleProcs(Apply(s, step)) || p in BusyProcs(Apply(s, step))
  {
    var s' := Apply(s, step);
    if step.SpawnOk? && p == s.next {
      assert Occupied(s'.calls[step.c]) == Some(p);
    } else if p in IdleProcs(s) {
      var i :| 0 <= i < |s.idle| && s.idle[i] == Some(p);
      IdleStays(s, step, p, i);
    } else {
      var c :| c in s.calls && Occupied(s.calls[c]) == Some(p);
      BusyStays(s, step, p, c);
    }
  }

  lemma IdleStays(s: State, step: Step, p: Proc, i: nat)
    requires Enabled(s, step) && i < |s.idle| && s.idle[i] == Some(p)
    ensures p in IdleProcs(Apply(s, step)) || p in BusyProcs(Apply(s, step))
  {
    var s' := Apply(s, step);
    match step
    case Checkout(c) =>
      if i == 0 { assert Occupied(s'.calls[c]) == Some(p); } else { assert s'.idle[i - 1] == Some(p); }
    case _ => assert s'.idle[i] == Some(p);
  }

  lemma BusyStays(s: State, step: Step, p: Proc, c: nat)
    requires Enabled(s, step) && c in s.calls && Occupied(s.calls[c]) == Some(p) && p in Apply(s, step).live
    ensures p in IdleProcs(Apply(s, step)) || p in BusyProcs(Apply(s, step))
  {
    var s' := Apply(s, step);
    if step == Return(c) {
      assert s'.idle[|s.idle|] == Some(p);
    } else {
      assert Occupied(s'.calls[c]) == Some(p);
    }
  }

  lemma {:induction false} FewIdle(idle: seq<Option<Proc>>)
    ensures |set i | 0 <= i < |idle| && idle[i].Some? :: idle[i].value| <= |idle|
  {
    var all := set i | 0 <= i < |idle| && idle[i].Some? :: idle[i].value;
    if idle != [] {
      var rest := idle[1..];
      var few := set i | 0 <= i < |rest| && rest[i].Some? :: rest[i].value;
      FewIdle(rest);
      var first := if idle[0].Some? then {idle[0].value} else {};
      forall p | p in all ensures p in few + first {
        var i :| 0 <= i < |idle| && idle[i] == Some(p);
        if i > 0 { assert rest[i - 1] == Some(p); }
      }
      SubsetSize(all, few + first);
    } else {
      assert all == {};
    }
  }

  lemma {:induction false} SubsetSize<T>(a: set<T>, b: set<T>)
    requires a <= b
    ensures |a| <= |b|
  {
    if a == {} {
    } else {
      var x :| x in a;
      SubsetSize(a - {x}, b - {x});
    }
  }

  lemma {:induction false} FewBusy(s: State, cs: set<nat>)
    requires forall c :: c in cs ==> c in s.calls
    ensures |set c | c in cs && Occupied(s.calls[c]).Some? :: Occupied(s.calls[c]).value| <= |cs|
  {
    var all := set c | c in cs && Occupied(s.calls[c]).Some? :: Occupied(s.calls[c]).value;
    if cs == {} {
      assert all == {};
    } else {
      var d :| d in cs;
      var rest := cs - {d};
      FewBusy(s, rest);
      var few := set c | c in rest && Occupied(s.calls[c]).Some? :: Occupied(s.calls[c]).value;
      var own := if Occupied(s.calls[d]).Some? then {Occupied(s.calls[d]).value} else {};
      assert all <= few + own;
      SubsetSize(all, few + own);
    }
  }

  /** Never more live processes than instances. */
  lemma LiveBounded(s: State)
    requires SlotsConserved(s) && LiveInSlots(s)
    ensures |s.live| <= s.instances
  {
    var cs := Holders(s);
    FewIdle(s.idle);
    FewBusy(s, cs);
    var busy := set c | c in cs && Occupied(s.calls[c]).Some? :: Occupied(s.calls[c]).value;
    forall p | p in BusyProcs(s) ensures p in busy {
      var c :| c in s.calls && Occupied(s.calls[c]) == Some(p);
      assert c in cs;
    }
    SubsetSize(s.live, IdleProcs(s) + busy);
  }

  // ---------- killed at most once ----------

  /** The call or closer that has taken p off the live set and has not killed it yet. */
  datatype Reaper = ByCall(c: nat) | ByCloser(k: nat)

  ghost predicate Reaps(s: State, r: Reaper, p: Proc) {
    match r
    case ByCall(c) => c in s.calls && s.calls[c] == Reaping(p)
    case ByCloser(k) => k in s.closers && s.closers[k].ClosingReaping? && s.closers[k].p == p
  }

  /** A process is live, or has one reaper, or has been killed once; never two of these. */
  ghost predicate KilledOnce(s: State) {
    && (forall r: Reaper, p: Proc :: Reaps(s, r, p) ==> p !in s.live && s.killed[p] == 0)
    && (forall r: Reaper, q: Reaper, p: Proc :: Reaps(s, r, p) && Reaps(s, q, p) ==> r == q)
    && (forall p :: p in s.live ==> s.killed[p] == 0 && p < s.next)
    && (forall p: Proc :: s.killed[p] <= 1)
    && (forall p: Proc :: s.killed[p] > 0 ==> p < s.next)
    && (forall r: Reaper, p: Proc :: Reaps(s, r, p) ==> p < s.next)
  }

  /** One party takes a process off the live set, to kill it. */
  lemma KilledTaken(s: State, s': State, r0: Reaper, p0: Proc)
    requires KilledOnce(s) && s'.killed == s.killed && s'.next == s.next && s'.live == s.live - {p0}
    requires forall r: Reaper, p: Proc ::
      Reaps(s', r, p) ==> Reaps(s, r, p) || (r == r0 && p == p0 && p0 in s.live)
    ensures KilledOnce(s')
  {
  }

  /** One party kills the process it took. */
  lemma KilledNow(s: State, s': State, r0: Reaper, p0: Proc)
    requires KilledOnce(s) && Reaps(s, r0, p0)
    requires s'.killed == s.killed + multiset{p0} && s'.next == s.next && s'.live == s.live
    requires forall r: Reaper, p: Proc :: Reaps(s', r, p) ==> Reaps(s, r, p) && r != r0
    ensures KilledOnce(s')
  {
  }

  lemma KilledStep(s: State, step: Step)
    requires KilledOnce(s) && Enabled(s, step)
    ensures KilledOnce(Apply(s, step))
  {
    match step
    case Untrack(c) => KilledTaken(s, Apply(s, step), ByCall(c), s.calls[c].p);
    case CloseUntrack(k) => KilledTaken(s, Apply(s, step), ByCloser(k), s.closers[k].todo[0]);
    case Reap(c) => KilledNow(s, Apply(s, step), ByCall(c), s.calls[c].p);
    case CloseReap(k) => KilledNow(s, Apply(s, step), ByCloser(k), s.closers[k].p);
    case _ => KilledOther(s, step);
  }

  lemma KilledOther(s: State, step: Step)
    requires KilledOnce(s) && Enabled(s, step)
    requires !step.Untrack? && !step.CloseUntrack? && !step.Reap? && !step.CloseReap?
    ensures KilledOnce(Apply(s, step))
  {
    var s' := Apply(s, step);
    assert forall r: Reaper, p: Proc :: Reaps(s', r, p) ==> Reaps(s, r, p);
  }

  // ---------- killed at least once ----------

  ghost predicate Reaped(s: State, p: Proc) {
    exists r: Reaper :: Reaps(s, r, p)
  }

  /** No process is lost: what was started is live, or has a reaper, or has been killed. */
  ghost predicate Accounted(s: State) {
    forall p: Proc :: p < s.next ==> p in s.live || Reaped(s, p) || s.killed[p] >= 1
  }

  /** A reaper holds its process until it has killed it. */
  lemma ReaperStays(s: State, step: Step, r: Reaper, p: Proc)
    requires Reaps(s, r, p) && Enabled(s, step)
    ensures Reaps(Apply(s, step), r, p) || Apply(s, step).killed[p] >= 1
  {
  }

  /** A process leaves the live set into the hands of a reaper. */
  lemma LiveOrTaken(s: State, step: Step, p: Proc)
    requires p in s.live && Enabled(s, step)
    ensures p in Apply(s, step).live || Reaped(Apply(s, step), p)
  {
    var s' := Apply(s, step);
    if p !in s'.live {
      match step
      case Untrack(c) => assert Reaps(s', ByCall(c), p);
      case CloseUntrack(k) => assert Reaps(s', ByCloser(k), p);
      case _ =>
    }
  }

  lemma AccountedStep(s: State, step: Step)
    requires Accounted(s) && Enabled(s, step)
    ensures Accounted(Apply(s, step))
  {
    var s' := Apply(s, step);
    forall p: Proc | p < s'.next ensures p in s'.live || Reaped(s', p) || s'.killed[p] >= 1 {
      if p in s.live {
        LiveOrTaken(s, step, p);
      } else if p < s.next && Reaped(s, p) {
        var r :| Reaps(s, r, p);
        ReaperStays(s, step, r, p);
      } else if p < s.next {
        assert s.killed[p] >= 1;
      }
    }
  }

  /** A call gets a process from an idle slot or by starting it. */
  lemma HeldFrom(s: State, step: Step, c: nat, p: Proc)
    requires Enabled(s, step)
    ensures Occupies(Apply(s, step), c, p) ==> Occupies(s, c, p) || Some(p) in s.idle || p == s.next
  {
  }

  /** A slot gets its process from a call. */
  lemma IdleFrom(s: State, step: Step, p: Proc)
    requires Enabled(s, step)
    ensures Some(p) in Apply(s, step).idle ==> Some(p) in s.idle || exists c: nat :: Occupies(s, c, p)
  {
    if step.Return? && s.calls[step.c].slot == Some(p) { assert Occupies(s, step.c, p); }
  }

  /** A call reaps only what it held. */
  lemma ReapedFrom(s: State, step: Step, c: nat, p: Proc)
    requires Enabled(s, step)
    ensures At(Apply(s, step), c, Reaping(p)) ==>
      At(s, c, Reaping(p))
      || (Occupies(s, c, p) && forall d: nat :: Occupies(Apply(s, step), d, p) ==> d != c && Occupies(s, d, p))
    ensures At(Apply(s, step), c, Reaping(p)) && !At(s, c, Reaping(p)) ==> Apply(s, step).idle == s.idle
  {
  }

  /** What a call is about to kill is in no slot and in no call's hands. */
  ghost predicate ReapedApart(s: State) {
    forall d: nat, p: Proc :: At(s, d, Reaping(p)) ==> Apart(s, p)
  }

  ghost predicate Apart(s: State, p: Proc) {
    Some(p) !in s.idle && forall c: nat :: !Occupies(s, c, p)
  }

  lemma ApartStep(s: State, step: Step, p: Proc)
    requires Enabled(s, step) && p < s.next && Apart(s, p)
    ensures Apart(Apply(s, step), p)
  {
    IdleFrom(s, step, p);
    forall c: nat ensures !Occupies(Apply(s, step), c, p) { HeldFrom(s, step, c, p); }
  }

  lemma ReapedApartStep(s: State, step: Step)
    requires OnePlace(s) && KilledOnce(s) && ReapedApart(s) && Enabled(s, step)
    ensures ReapedApart(Apply(s, step))
  {
    forall d: nat, p: Proc | At(Apply(s, step), d, Reaping(p)) ensures Apart(Apply(s, step), p) {
      ReapedFrom(s, step, d, p);
      if At(s, d, Reaping(p)) {
        assert Reaps(s, ByCall(d), p);
        ApartStep(s, step, p);
      } else {
        assert Occupies(s, d, p);
      }
    }
  }

  /** What becomes of a process: it is live, or one party is about to kill it, or it was killed once. */
  ghost predicate Fate(s: State, p: Proc) {
    || (p in s.live && !Reaped(s, p) && s.killed[p] == 0)
    || (p !in s.live && Reaped(s, p) && s.killed[p] == 0)
    || (p !in s.live && !Reaped(s, p) && s.killed[p] == 1)
  }

  lemma FateOf(s: State, p: Proc)
    requires KilledOnce(s) && Accounted(s)
    ensures p < s.next ==> Fate(s, p)
    ensures p >= s.next ==> p !in s.live && !Reaped(s, p) && s.killed[p] == 0
  {
    if Reaped(s, p) {
      var r :| Reaps(s, r, p);
    }
  }

  // ---------- closing ----------

  /** What a closer has dealt with is no longer live. */
  ghost predicate ClosersProgress(s: State) {
    && (forall k, p :: k in s.closers && p in s.closers[k].snapshot && p in s.live ==> p in s.closers[k].todo)
    && (forall k, p :: k in s.closers && p in s.closers[k].snapshot ==> p < s.next)
    && (forall p :: p in s.live ==> p < s.next)
  }

  lemma ClosersStep(s: State, step: Step)
    requires ClosersProgress(s) && Enabled(s, step)
    ensures ClosersProgress(Apply(s, step))
  {
    match step
    case CloseUntrack(k) =>
      var cl := s.closers[k];
      assert cl.todo == [cl.todo[0]] + cl.todo[1..];
    case CloseBegin(k, order) =>
      forall p | p in s.live ensures p in order { assert p in (set q | q in order); }
    case _ =>
  }

  // ---------- every state of every run ----------

  ghost predicate Inv(s: State) {
    && s.instances >= 1 && SlotsConserved(s) && OnePlace(s) && FailedStayOut(s)
    && LiveInSlots(s) && KilledOnce(s) && Accounted(s) && ReapedApart(s) && ClosersProgress(s)
  }

  lemma OpenedInv(instances: int)
    ensures Inv(Opened(instances))
  {
    var s := Opened(instances);
    assert Holders(s) == {};
    assert s.idle[0] == Some(0) && 0 in IdleProcs(s);
  }

  lemma StepInv(s: State, step: Step)
    requires Inv(s) && Enabled(s, step)
    ensures Inv(Apply(s, step))
  {
    SlotsStep(s, step);
    OnePlaceStep(s, step);
    FailedStep(s, step);
    LiveStep(s, step);
    KilledStep(s, step);
    AccountedStep(s, step);
    ReapedApartStep(s, step);
    ClosersStep(s, step);
  }

  lemma {:induction false} RunInv(instances: int, steps: seq<Step>, states: seq<State>, i: nat)
    requires IsRun(instances, steps, states) && i < |states|
    ensures Inv(states[i])
  {
    if i == 0 {
      OpenedInv(instances);
    } else {
      RunInv(instances, steps, states, i - 1);
      assert Enabled(states[i - 1], steps[i - 1]) && states[i] == Apply(states[i - 1], steps[i - 1]);
      StepInv(states[i - 1], steps[i - 1]);
    }
  }

  /** Safety of the pool in every state of every run. */
  lemma PoolSafety(instances: int, steps: seq<Step>, states: seq<State>, i: nat)
    requires IsRun(instances, steps, states) && i < |states|
    ensures var s := states[i];
      && |s.idle| + |Holders(s)| == s.instances
      && (forall c :: c in s.calls && s.calls[c].Returning? ==> Enabled(s, Return(c)))
      && (forall c, d :: c in s.calls && d in s.calls && s.calls[c].Searching? && s.calls[d] == s.calls[c] ==> c == d)
      && |s.live| <= s.instances
      && (forall p :: p in s.failed ==> Some(p) !in s.idle && forall c :: c in s.calls ==> s.calls[c] != Searching(p))
      && (forall p: Proc :: p < s.next ==> Fate(s, p))
      && (forall r, q: Reaper, p: Proc :: Reaps(s, r, p) && Reaps(s, q, p) ==> r == q)
      && (forall k :: k in s.closers && s.closers[k].todo == [] ==> s.closers[k].snapshot !! s.live)
  {
    var s := states[i];
    RunInv(instances, steps, states, i);
    forall c | c in s.calls && s.calls[c].Returning? ensures Enabled(s, Return(c)) { ReturnNeverBlocks(s, c); }
    forall c, d | c in s.calls && d in s.calls && s.calls[c].Searching? && s.calls[d] == s.calls[c] ensures c == d {
      assert Occupies(s, c, s.calls[c].p) && Occupies(s, d, s.calls[c].p);
    }
    LiveBounded(s);
    forall p: Proc | p < s.next ensures Fate(s, p) { FateOf(s, p); }
  }

  // ---------- what happens to a failed process ----------

  lemma {:induction false} KilledStays(instances: int, steps: seq<Step>, states: seq<State>, i: nat, j: nat, p: Proc)
    requires IsRun(instances, steps, states) && i <= j < |states|
    ensures states[j].killed[p] >= states[i].killed[p]
    decreases j
  {
    if i == j {
    } else {
      KilledStays(instances, steps, states, i, j - 1, p);
      RunStep(instances, steps, states, j - 1);
    }
  }

  /** Whoever reaps a process kills it, once and for good. */
  lemma ReapKills(instances: int, steps: seq<Step>, states: seq<State>, i: nat, j: nat, r: Reaper, p: Proc)
    requires IsRun(instances, steps, states) && i < j < |states| && Reaps(states[i], r, p)
    requires steps[i] == match r case ByCall(c) => Reap(c) case ByCloser(k) => CloseReap(k)
    ensures states[j].killed[p] == 1 && p !in states[j].live
  {
    RunStep(instances, steps, states, i);
    KilledStays(instances, steps, states, i + 1, j, p);
    RunInv(instances, steps, states, j);
  }

  /** The call c is done with the process p, which nobody else holds and which it alone may take off
      the live set. */
  ghost predicate Doomed(s: State, c: nat, p: Proc) {
    && p < s.next && Some(p) !in s.idle
    && (forall d: nat :: Occupies(s, d, p) ==> d == c && s.calls[c] == Killing(p))
    && (forall d: nat :: At(s, d, Reaping(p)) ==> d == c)
    && c in s.calls && s.calls[c] in {Killing(p), Reaping(p), Returning(None), Finished}
    && (p in s.live ==> s.calls[c] == Killing(p))
  }

  lemma DoomedStep(s: State, step: Step, c: nat, p: Proc)
    requires Doomed(s, c, p) && Enabled(s, step)
    ensures Doomed(Apply(s, step), c, p)
  {
    var s' := Apply(s, step);
    forall d: nat ensures Occupies(s', d, p) ==> d == c && s'.calls[c] == Killing(p) { HeldFrom(s, step, d, p); }
    forall d: nat ensures At(s', d, Reaping(p)) ==> d == c { ReapedFrom(s, step, d, p); }
    DoomedIdle(s, step, c, p);
  }

  lemma DoomedIdle(s: State, step: Step, c: nat, p: Proc)
    requires Doomed(s, c, p) && Enabled(s, step)
    ensures Some(p) !in Apply(s, step).idle
  {
    if step.Return? { assert Occupied(s.calls[step.c]) == Some(p) ==> Occupies(s, step.c, p); }
  }

  lemma DoomedAt(instances: int, steps: seq<Step>, states: seq<State>, i: nat, c: nat, p: Proc)
    requires IsRun(instances, steps, states) && i < |steps|
    requires steps[i] == SearchFail(c) && At(states[i], c, Searching(p))
    ensures Doomed(states[i + 1], c, p)
  {
    RunStep(instances, steps, states, i);
    RunInv(instances, steps, states, i + 1);
    assert Occupies(states[i + 1], c, p);
  }

  lemma {:induction false} DoomedUpTo(
    instances: int, steps: seq<Step>, states: seq<State>, i: nat, j: nat, c: nat, p: Proc)
    requires IsRun(instances, steps, states) && i < j < |states|
    requires steps[i] == SearchFail(c) && At(states[i], c, Searching(p))
    ensures Doomed(states[j], c, p)
    decreases j
  {
    if j == i + 1 {
      DoomedAt(instances, steps, states, i, c, p);
    } else {
      DoomedUpTo(instances, steps, states, i, j - 1, c, p);
      RunStep(instances, steps, states, j - 1);
      DoomedStep(states[j - 1], steps[j - 1], c, p);
    }
  }

  /** A process whose search failed never comes back: no slot and no other call gets it; and when its
      call is about to give the slot back, it is killed, or a closing is about to kill it. */
  lemma FailedProcessEnds(
    instances: int, steps: seq<Step>, states: seq<State>, i: nat, j: nat, c: nat, p: Proc)
    requires IsRun(instances, steps, states) && i < j < |states|
    requires steps[i] == SearchFail(c) && At(states[i], c, Searching(p))
    ensures var s := states[j];
      && Some(p) !in s.idle && (forall d :: d in s.calls ==> s.calls[d] !in {Searching(p), Returning(Some(p))})
      && c in s.calls
      && (s.calls[c].Returning? || s.calls[c].Finished? ==>
            p !in s.live && (s.killed[p] == 1 || exists k :: Reaps(s, ByCloser(k), p)))
  {
    var s := states[j];
    DoomedUpTo(instances, steps, states, i, j, c, p);
    RunInv(instances, steps, states, j);
    FateOf(s, p);
    forall d | d in s.calls ensures s.calls[d] !in {Searching(p), Returning(Some(p))} {
      if s.calls[d] in {Searching(p), Returning(Some(p))} { assert Occupies(s, d, p); }
    }
    if (s.calls[c].Returning? || s.calls[c].Finished?) && s.killed[p] == 0 {
      var r :| Reaps(s, r, p);
      if r.ByCall? { assert At(s, r.c, Reaping(p)); }
    }
  }

  /** The step of a call that holds a slot. */
  function HolderStep(c: nat, call: Call): Step
    requires Holds(call)
  {
    match call
    case Spawning => SpawnFail(c)
    case Searching(_) => SearchFail(c)
    case Killing(_) => Untrack(c)
    case Reaping(_) => Reap(c)
    case Returning(_) => Return(c)
  }

  /** No deadlock: where a call waits for a slot, it can take one, or a call that holds one can move
      on. */
  lemma PoolMovesOn(instances: int, steps: seq<Step>, states: seq<State>, i: nat, c: nat)
    requires IsRun(instances, steps, states) && i < |states| && At(states[i], c, Waiting)
    ensures var s := states[i];
      Enabled(s, Checkout(c))
      || exists d :: d in s.calls && Holds(s.calls[d]) && Enabled(s, HolderStep(d, s.calls[d]))
  {
    var s := states[i];
    RunInv(instances, steps, states, i);
    if s.idle == [] {
      assert Holders(s) != {};
      var d :| d in Holders(s);
      if s.calls[d].Returning? { ReturnNeverBlocks(s, d); }
      assert Enabled(s, HolderStep(d, s.calls[d]));
    }
  }

  // ---------- turns ----------

  /** The slot that a step gives back, in the state before it. */
  function GivenAt(step: Step, s: State): seq<Option<Proc>> {
    if step.Return? && step.c in s.calls && s.calls[step.c].Returning? then [s.calls[step.c].slot] else []
  }

  /** The slot that a step hands to a call, by the state after it. */
  function TakenAt(step: Step, s': State): seq<Option<Proc>> {
    if !step.Checkout? || step.c !in s'.calls then []
    else if s'.calls[step.c].Searching? then [Some(s'.calls[step.c].p)]
    else [None]
  }

  /** The slots that were given back during the first i steps, in order. */
  function GivenBack(steps: seq<Step>, states: seq<State>, i: nat): seq<Option<Proc>>
    requires i <= |steps| && |states| == |steps| + 1
  {
    if i == 0 then [] else GivenBack(steps, states, i - 1) + GivenAt(steps[i - 1], states[i - 1])
  }

  /** The slots that calls got during the first i steps, in order. */
  function Taken(steps: seq<Step>, states: seq<State>, i: nat): seq<Option<Proc>>
    requires i <= |steps| && |states| == |steps| + 1
  {
    if i == 0 then [] else Taken(steps, states, i - 1) + TakenAt(steps[i - 1], states[i])
  }

  /** Slots are handed out in the order in which they came back. */
  lemma {:induction false} FirstInFirstOut(instances: int, steps: seq<Step>, states: seq<State>, i: nat)
    requires IsRun(instances, steps, states) && i < |states|
    ensures Opened(instances).idle + GivenBack(steps, states, i) == Taken(steps, states, i) + states[i].idle
  {
    if i == 0 {
    } else {
      FirstInFirstOut(instances, steps, states, i - 1);
      RunStep(instances, steps, states, i - 1);
      SlotFlow(states[i - 1], steps[i - 1]);
      FlowOn(Opened(instances).idle, GivenBack(steps, states, i - 1), GivenAt(steps[i - 1], states[i - 1]),
             Taken(steps, states, i - 1), TakenAt(steps[i - 1], states[i]), states[i - 1].idle, states[i].idle);
    }
  }

  lemma SlotFlow(s: State, step: Step)
    requires Enabled(s, step)
    ensures s.idle + GivenAt(step, s) == TakenAt(step, Apply(s, step)) + Apply(s, step).idle
  {
    var s' := Apply(s, step);
    match step
    case Checkout(c) => assert s.idle == [s.idle[0]] + s'.idle;
    case _ => assert s.idle + GivenAt(step, s) == s'.idle;
  }

  lemma FlowOn<T>(first: seq<T>, given: seq<T>, g: seq<T>, taken: seq<T>, t: seq<T>, idle: seq<T>, idle': seq<T>)
    requires first + given == taken + idle && idle + g == t + idle'
    ensures first + (given + g) == (taken + t) + idle'
  {
    assert first + (given + g) == (first + given) + g;
    assert (taken + idle) + g == taken + (idle + g);
  }

  /** How many steps a call can still make. */
  function Rank(s: State, c: nat): nat {
    if c !in s.calls then 7
    else
      match s.calls[c]
      case Waiting => 6
      case Spawning => 5
      case Searching(_) => 4
      case Killing(_) => 3
      case Reaping(_) => 2
      case Returning(_) => 1
      case Finished => 0
  }

  function StepsOf(steps: seq<Step>, c: nat, i: nat): nat
    requires i <= |steps|
  {
    if i == 0 then 0 else StepsOf(steps, c, i - 1) + if CallOf(steps[i - 1]) == Some(c) then 1 else 0
  }

  /** Every step of a call brings it nearer to its end: it makes at most seven. */
  lemma {:induction false} CallAdvances(instances: int, steps: seq<Step>, states: seq<State>, i: nat, c: nat)
    requires IsRun(instances, steps, states) && i < |states|
    ensures StepsOf(steps, c, i) + Rank(states[i], c) <= 7
  {
    if i == 0 {
    } else {
      CallAdvances(instances, steps, states, i - 1, c);
      RunStep(instances, steps, states, i - 1);
      StepRanks(states[i - 1], steps[i - 1], c);
    }
  }

  lemma StepRanks(s: State, step: Step, c: nat)
    requires Enabled(s, step)
    ensures CallOf(step) == Some(c) ==> Rank(Apply(s, step), c) < Rank(s, c)
    ensures CallOf(step) != Some(c) ==> Rank(Apply(s, step), c) == Rank(s, c)
  {
  }

  // ---------- what outlives a closing ----------

  lemma RunStep(instances: int, steps: seq<Step>, states: seq<State>, i: nat)
    requires IsRun(instances, steps, states) && i < |steps|
    ensures Enabled(states[i], steps[i]) && states[i + 1] == Apply(states[i], steps[i])
  {
  }

  /** A closing keeps its snapshot. */
  lemma {:induction false} SnapshotKept(instances: int, steps: seq<Step>, states: seq<State>, a: nat, b: nat, k: nat)
    requires IsRun(instances, steps, states) && a <= b < |states| && k in states[a].closers
    ensures k in states[b].closers && states[b].closers[k].snapshot == states[a].closers[k].snapshot
    decreases b
  {
    if a == b {
    } else {
      SnapshotKept(instances, steps, states, a, b - 1, k);
      RunStep(instances, steps, states, b - 1);
    }
  }

  /** The i-th step spawned p. */
  predicate Spawns(steps: seq<Step>, states: seq<State>, i: nat, p: Proc)
    requires |states| == |steps| + 1 && i < |steps|
  {
    steps[i].SpawnOk? && states[i].next == p
  }

  /** The j-th step took p off the live set, for a call or for a closing. */
  predicate Unlists(steps: seq<Step>, states: seq<State>, j: nat, p: Proc)
    requires |states| == |steps| + 1 && j < |steps|
  {
    match steps[j]
    case Untrack(c) => At(states[j], c, Killing(p))
    case CloseUntrack(k) =>
      k in states[j].closers && states[j].closers[k].Closing? && [p] <= states[j].closers[k].todo
    case _ => false
  }

  ghost predicate UnlistedBetween(steps: seq<Step>, states: seq<State>, i: nat, b: nat, p: Proc)
    requires |states| == |steps| + 1 && b <= |steps|
  {
    exists j :: i < j < b && Unlists(steps, states, j, p)
  }

  /** p was spawned since step a and not taken off the live set up to state b. */
  ghost predicate SpawnedAndKept(steps: seq<Step>, states: seq<State>, a: nat, b: nat, p: Proc)
    requires |states| == |steps| + 1 && b <= |steps|
  {
    exists i :: a <= i < b && Spawns(steps, states, i, p) && !UnlistedBetween(steps, states, i, b, p)
  }

  /** What one step does to the live set. */
  lemma LiveAfter(instances: int, steps: seq<Step>, states: seq<State>, i: nat, p: Proc)
    requires IsRun(instances, steps, states) && i < |steps|
    ensures p in states[i + 1].live
      <==> Spawns(steps, states, i, p) || (p in states[i].live && !Unlists(steps, states, i, p))
  {
    RunStep(instances, steps, states, i);
    RunInv(instances, steps, states, i);
  }

  lemma KeptOn(steps: seq<Step>, states: seq<State>, a: nat, b: nat, p: Proc)
    requires |states| == |steps| + 1 && 0 < b <= |steps|
    requires SpawnedAndKept(steps, states, a, b - 1, p) && !Unlists(steps, states, b - 1, p)
    ensures SpawnedAndKept(steps, states, a, b, p)
  {
    var i :| a <= i < b - 1 && Spawns(steps, states, i, p) && !UnlistedBetween(steps, states, i, b - 1, p);
    assert !UnlistedBetween(steps, states, i, b, p);
  }

  /** A live process was live before, or was spawned in between and kept. */
  lemma {:induction false} LiveSince(instances: int, steps: seq<Step>, states: seq<State>, a: nat, b: nat, p: Proc)
    requires IsRun(instances, steps, states) && a <= b < |states| && p in states[b].live
    ensures p in states[a].live || SpawnedAndKept(steps, states, a, b, p)
    decreases b
  {
    if a == b {
    } else {
      LiveAfter(instances, steps, states, b - 1, p);
      if p in states[b - 1].live {
        LiveSince(instances, steps, states, a, b - 1, p);
        if p !in states[a].live { KeptOn(steps, states, a, b, p); }
      } else {
        assert Spawns(steps, states, b - 1, p) && !UnlistedBetween(steps, states, b - 1, b, p);
      }
    }
  }

  /** A spawned process stays live until it is taken off. */
  lemma {:induction false} KeptLive(instances: int, steps: seq<Step>, states: seq<State>, i: nat, b: nat, p: Proc)
    requires IsRun(instances, steps, states) && i < b < |states|
    requires Spawns(steps, states, i, p) && !UnlistedBetween(steps, states, i, b, p)
    ensures p in states[b].live
    decreases b
  {
    LiveAfter(instances, steps, states, b - 1, p);
    if b == i + 1 {
    } else {
      assert !UnlistedBetween(steps, states, i, b - 1, p);
      KeptLive(instances, steps, states, i, b - 1, p);
      assert !Unlists(steps, states, b - 1, p);
    }
  }

  /** The closing k began with step a and is through before step b. */
  ghost predicate ClosedBetween(steps: seq<Step>, states: seq<State>, a: nat, b: nat, k: nat)
    requires |states| == |steps| + 1
  {
    && a < b < |states| && steps[a].CloseBegin? && steps[a].k == k
    && k in states[b].closers && states[b].closers[k].Closing? && states[b].closers[k].todo == []
  }

  /** When Close is through, exactly those processes are live that were spawned since it began and that
      no step has taken off since. So it leaves nothing live if and only if every process spawned meanwhile
      was taken off again. */
  lemma CloseLeaves(instances: int, steps: seq<Step>, states: seq<State>, a: nat, b: nat, k: nat)
    requires IsRun(instances, steps, states) && ClosedBetween(steps, states, a, b, k)
    ensures forall p :: p in states[b].live <==> SpawnedAndKept(steps, states, a, b, p)
    ensures forall p :: p in states[b].live ==> p >= states[a].next
    ensures states[b].live == {}
      <==> forall i, p :: a <= i < b && Spawns(steps, states, i, p) ==> UnlistedBetween(steps, states, i, b, p)
  {
    RunStep(instances, steps, states, a);
    SnapshotKept(instances, steps, states, a + 1, b, k);
    RunInv(instances, steps, states, b);
    assert states[b].closers[k].snapshot == states[a].live;
    forall p | p in states[b].live ensures p >= states[a].next && SpawnedAndKept(steps, states, a, b, p) {
      LiveSince(instances, steps, states, a, b, p);
      var i :| a <= i < b && Spawns(steps, states, i, p) && !UnlistedBetween(steps, states, i, b, p);
      NamesGrow(instances, steps, states, a, i);
    }
    forall i, p | a <= i < b && Spawns(steps, states, i, p) && !UnlistedBetween(steps, states, i, b, p)
      ensures p in states[b].live
    {
      KeptLive(instances, steps, states, i, b, p);
    }
  }

  lemma {:induction false} NamesGrow(instances: int, steps: seq<Step>, states: seq<State>, a: nat, i: nat)
    requires IsRun(instances, steps, states) && a <= i < |states|
    ensures states[a].next <= states[i].next
    decreases i
  {
    if a == i {
    } else {
      NamesGrow(instances, steps, states, a, i - 1);
      RunStep(instances, steps, states, i - 1);
    }
  }

  /** Without a spawn while it works, Close leaves nothing live. */
  lemma QuietCloseLeavesNothing(instances: int, steps: seq<Step>, states: seq<State>, a: nat, b: nat, k: nat)
    requires IsRun(instances, steps, states) && ClosedBetween(steps, states, a, b, k)
    requires forall i :: a <= i < b ==> !steps[i].SpawnOk?
    ensures states[b].live == {}
  {
    CloseLeaves(instances, steps, states, a, b, k);
  }

  /** With a spawn as the last step before it is through, it leaves that process live. */
  lemma SpawnOutlivesClose(instances: int, steps: seq<Step>, states: seq<State>, a: nat, b: nat, k: nat)
    requires IsRun(instances, steps, states) && ClosedBetween(steps, states, a, b, k) && steps[b - 1].SpawnOk?
    ensures states[b - 1].next in states[b].live
  {
    var p := states[b - 1].next;
    CloseLeaves(instances, steps, states, a, b, k);
    assert Spawns(steps, states, b - 1, p) && !UnlistedBetween(steps, states, b - 1, b, p);
    assert SpawnedAndKept(steps, states, a, b, p);
  }

  lemma RunOn(instances: int, steps: seq<Step>, states: seq<State>, step: Step)
    requires IsRun(instances, steps, states) && Enabled(states[|states| - 1], step)
    ensures IsRun(instances, steps + [step], states + [Apply(states[|states| - 1], step)])
  {
  }

  /** Close ends what was live when it began, not what is being spawned meanwhile: a process can
      come to life after Close is through. */
  lemma LateSpawnSurvives() returns (steps: seq<Step>, states: seq<State>)
    ensures IsRun(2, steps, states)
    ensures var s := states[|states| - 1];
      0 in s.closers && s.closers[0] == Closing({0}, []) && s.live == {1}
  {
    var s := Opened(2);
    assert s.idle == [Some(0), None];
    steps, states := [], [s];
    RunOn(2, steps, states, Arrive(0));
    steps, states := steps + [Arrive(0)], states + [Apply(s, Arrive(0))];
    s := Apply(s, Arrive(0));
    RunOn(2, steps, states, Arrive(1));
    steps, states := steps + [Arrive(1)], states + [Apply(s, Arrive(1))];
    s := Apply(s, Arrive(1));
    RunOn(2, steps, states, Checkout(0));
    steps, states := steps + [Checkout(0)], states + [Apply(s, Checkout(0))];
    s := Apply(s, Checkout(0));
    assert s.idle == [None] && s.live == {0};
    RunOn(2, steps, states, Checkout(1));
    steps, states := steps + [Checkout(1)], states + [Apply(s, Checkout(1))];
    s := Apply(s, Checkout(1));
    assert s.calls[1] == Spawning && s.live == {0} && s.closers == map[] && s.next == 1;
    steps, states := CloseAndSpawn(steps, states);
  }

  lemma CloseAndSpawn(steps: seq<Step>, states: seq<State>) returns (steps': seq<Step>, states': seq<State>)
    requires IsRun(2, steps, states)
    requires var s := states[|states| - 1]; At(s, 1, Spawning) && s.live == {0} && s.closers == map[] && s.next == 1
    ensures IsRun(2, steps', states')
    ensures var s := states'[|states'| - 1];
      0 in s.closers && s.closers[0] == Closing({0}, []) && s.live == {1}
  {
    var s := states[|states| - 1];
    var order: seq<Proc> := [0];
    assert (set p | p in order) == {0};
    RunOn(2, steps, states, CloseBegin(0, [0]));
    steps', states' := steps + [CloseBegin(0, [0])], states + [Apply(s, CloseBegin(0, [0]))];
    s := Apply(s, CloseBegin(0, [0]));
    assert s.closers[0] == Closing({0}, [0]);
    RunOn(2, steps', states', CloseUntrack(0));
    steps', states' := steps' + [CloseUntrack(0)], states' + [Apply(s, CloseUntrack(0))];
    s := Apply(s, CloseUntrack(0));
    assert s.closers[0] == ClosingReaping({0}, 0, []) && s.live == {};
    RunOn(2, steps', states', CloseReap(0));
    steps', states' := steps' + [CloseReap(0)], states' + [Apply(s, CloseReap(0))];
    s := Apply(s, CloseReap(0));
    RunOn(2, steps', states', SpawnOk(1));
    steps', states' := steps' + [SpawnOk(1)], states' + [Apply(s, SpawnOk(1))];
  }
}

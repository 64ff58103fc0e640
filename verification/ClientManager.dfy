/** Generations of SDK clients shared by concurrent borrowers
    (`vector_lake/embedding_scheduler.py`, `_ClientManager`). */
module ClientManager {
  import opened Ordering

  // Each section that holds the manager's lock is one step. Construction and `close()` run outside
  // the lock, so other steps fall between the start and the end of each.

  type Key(==,!new)
  datatype State = Constructing | Active | Retired | Closing | CloseFailed

  /** `id` stands for the identity of the generation object. */
  datatype Generation = Generation(id: nat, key: Key, epoch: nat, state: State, borrowers: nat)
  datatype Manager = Manager(epoch: nat, stopped: bool, generations: seq<Generation>, nextId: nat)

  /** What one pass through the lock in `borrow` decides. */
  datatype Pass = ShutDown | OutOfBudget | Borrowed(id: nat) | MustClose(ids: seq<nat>) | Reserved(id: nat) | Waits

  // ---------------------------------------------------------------- the steps on values

  function RetireOne(g: Generation): Generation {
    var h := if g.state == Active then g.(state := Retired) else g;
    if h.state == Retired && h.borrowers == 0 then h.(state := Closing) else h
  }

  function RetireAll(gs: seq<Generation>): (r: seq<Generation>)
    ensures |r| == |gs| && forall i | 0 <= i < |gs| :: r[i] == RetireOne(gs[i])
  {
    if gs == [] then [] else RetireAll(gs[..|gs| - 1]) + [RetireOne(gs[|gs| - 1])]
  }

  predicate Closes(g: Generation) { g.state != Closing && RetireOne(g).state == Closing }

  /** The generations that retiring puts into the hands of the caller, to be closed outside the lock. */
  function NewlyClosing(gs: seq<Generation>): seq<nat> {
    if gs == [] then []
    else NewlyClosing(gs[..|gs| - 1]) + if Closes(gs[|gs| - 1]) then [gs[|gs| - 1].id] else []
  }

  /** The first generation that is active under `key`, or `|gs|`. */
  function FindActive(gs: seq<Generation>, key: Key, i: nat): (r: nat)
    requires i <= |gs|
    ensures i <= r <= |gs|
    ensures r < |gs| ==> gs[r].state == Active && gs[r].key == key
    ensures forall j | i <= j < r :: !(gs[j].state == Active && gs[j].key == key)
    decreases |gs| - i
  {
    if i == |gs| || (gs[i].state == Active && gs[i].key == key) then i else FindActive(gs, key, i + 1)
  }

  predicate HasConstructing(gs: seq<Generation>) { exists i | 0 <= i < |gs| :: gs[i].state == Constructing }

  function Acquire(m: Manager, key: Key, expired: bool): (Manager, Pass) {
    if m.stopped then (m, ShutDown)
    else if expired then (m, OutOfBudget)
    else
      var i := FindActive(m.generations, key, 0);
      if i < |m.generations| then
        var g := m.generations[i];
        (m.(generations := m.generations[i := g.(borrowers := g.borrowers + 1)]), Borrowed(g.id))
      else
        var gs := RetireAll(m.generations);
        var closing := NewlyClosing(m.generations);
        if closing == [] && |gs| < 2 && !HasConstructing(gs) then
          (m.(generations := gs + [Generation(m.nextId, key, m.epoch, Constructing, 0)], nextId := m.nextId + 1), Reserved(m.nextId))
        else if closing == [] then (m.(generations := gs), Waits)
        else (m.(generations := gs), MustClose(closing))
  }

  function Without(gs: seq<Generation>, id: nat): (r: seq<Generation>)
    ensures forall g :: g in r <==> g in gs && g.id != id
  {
    if gs == [] then []
    else
      assert gs == gs[..|gs| - 1] + [gs[|gs| - 1]];
      Without(gs[..|gs| - 1], id) + if gs[|gs| - 1].id == id then [] else [gs[|gs| - 1]]
  }

  function Finished(m: Manager, g: Generation, expired: bool): Generation {
    if m.stopped || g.epoch != m.epoch || expired then g.(state := Closing) else g.(state := Active, borrowers := 1)
  }

  function Released(g: Generation): Generation
    requires g.borrowers > 0
  {
    var h := g.(borrowers := g.borrowers - 1);
    if h.state == Retired && h.borrowers == 0 then h.(state := Closing) else h
  }

  function Invalidate(m: Manager, shutdown: bool, reopen: bool): (Manager, seq<nat>) {
    (m.(epoch := m.epoch + 1,
        stopped := if shutdown then true else if reopen then false else m.stopped,
        generations := RetireAll(m.generations)),
     NewlyClosing(m.generations))
  }

  // ---------------------------------------------------------------- the manager object

  class Clients {
    var epoch: nat
    var stopped: bool
    var generations: seq<Generation>
    var nextId: nat

    function Value(): Manager
      reads this
    { Manager(epoch, stopped, generations, nextId) }

    constructor ()
      ensures Value() == Manager(0, false, [], 0)
    {
      epoch, stopped, generations, nextId := 0, false, [], 0;
    }

    /** The loop that `borrow` and `invalidate` share. */
    method RetireGenerations() returns (closing: seq<nat>)
      modifies `generations
      ensures generations == RetireAll(old(generations)) && closing == NewlyClosing(old(generations))
    {
      closing := [];
      ghost var was := generations;
      for i := 0 to |generations|
        invariant |generations| == |was| && generations[i..] == was[i..]
        invariant generations[..i] == RetireAll(was[..i]) && closing == NewlyClosing(was[..i])
      {
        assert was[..i + 1][..i] == was[..i];
        assert generations[i] == generations[i..][0] == was[i..][0] == was[i];
        ghost var before := generations;
        assert before[i + 1..] == before[i..][1..] == was[i..][1..] == was[i + 1..];
        if generations[i].state == Active {
          generations := generations[i := generations[i].(state := Retired)];
        }
        if generations[i].state == Retired && generations[i].borrowers == 0 {
          generations := generations[i := generations[i].(state := Closing)];
          closing := closing + [generations[i].id];
        }
        assert generations[i] == RetireOne(was[i]) && generations == before[i := generations[i]];
        assert generations[i + 1..] == before[i + 1..];
        assert generations[..i + 1] == before[..i] + [generations[i]];
      }
      assert was[..|was|] == was && generations[..|was|] == generations;
    }

    method Borrow(key: Key, expired: bool) returns (pass: Pass)
      modifies this
      ensures (Value(), pass) == Acquire(old(Value()), key, expired)
    {
      if stopped { return ShutDown; }
      if expired { return OutOfBudget; }
      var i := 0;
      while i < |generations| && !(generations[i].state == Active && generations[i].key == key)
        invariant i <= |generations| && FindActive(generations, key, 0) == FindActive(generations, key, i)
      {
        i := i + 1;
      }
      if i < |generations| {
        generations := generations[i := generations[i].(borrowers := generations[i].borrowers + 1)];
        return Borrowed(generations[i].id);
      }
      var closing := RetireGenerations();
      if closing == [] && |generations| < 2 && !HasConstructing(generations) {
        generations := generations + [Generation(nextId, key, epoch, Constructing, 0)];
        nextId := nextId + 1;
        return Reserved(nextId - 1);
      }
      return if closing == [] then Waits else MustClose(closing);
    }

    method InvalidateAll(shutdown: bool, reopen: bool) returns (closing: seq<nat>)
      modifies this
      ensures (Value(), closing) == Invalidate(old(Value()), shutdown, reopen)
    {
      epoch := epoch + 1;
      stopped := if shutdown then true else if reopen then false else stopped;
      closing := RetireGenerations();
      assert Value().generations == RetireAll(old(generations)) && closing == NewlyClosing(old(generations));
    }

    /** The end of a successful construction; `mustClose` tells the constructing thread to close it. */
    method Install(i: nat, expired: bool) returns (mustClose: bool)
      requires i < |generations|
      modifies `generations
      ensures generations == old(generations)[i := Finished(old(Value()), old(generations)[i], expired)]
      ensures mustClose <==> generations[i].state == Closing
    {
      var invalidated := stopped || generations[i].epoch != epoch;
      mustClose := invalidated || expired;
      if mustClose {
        generations := generations[i := generations[i].(state := Closing)];
      } else {
        generations := generations[i := generations[i].(state := Active)];
        generations := generations[i := generations[i].(borrowers := 1)];
      }
    }

    method Release(i: nat) returns (mustClose: bool)
      requires i < |generations| && generations[i].borrowers > 0
      modifies `generations
      ensures generations == old(generations)[i := Released(old(generations)[i])]
      ensures mustClose <==> old(generations)[i].state == Retired && old(generations)[i].borrowers == 1
    {
      generations := generations[i := generations[i].(borrowers := generations[i].borrowers - 1)];
      mustClose := generations[i].state == Retired && generations[i].borrowers == 0;
      if mustClose {
        generations := generations[i := generations[i].(state := Closing)];
      }
    }

    /** A failed construction and a successful close both drop the generation. */
    method Remove(id: nat)
      modifies `generations
      ensures generations == Without(old(generations), id)
    {
      var kept := [];
      for i := 0 to |generations|
        invariant kept == Without(generations[..i], id)
      {
        assert generations[..i + 1][..i] == generations[..i];
        if generations[i].id != id { kept := kept + [generations[i]]; }
      }
      assert generations[..|generations|] == generations;
      generations := kept;
    }
  }

  // ---------------------------------------------------------------- all interleavings

  /** The manager and what its threads still owe or hold: borrowed clients, clients to close,
      `close()` calls in progress, and all close attempts so far. */
  datatype World = World(m: Manager, held: multiset<nat>, due: multiset<nat>, running: multiset<nat>, attempts: multiset<nat>)

  datatype Event =
    | Enter(key: Key, expired: bool)
    | Built(at: nat, expired: bool)
    | BuildFailed(at: nat)
    | GiveBack(at: nat)
    | InvalidateEvent(shutdown: bool, reopen: bool)
    | CloseStart(id: nat)
    | CloseDone(at: nat, ok: bool)

  predicate Enabled(w: World, e: Event) {
    var gs := w.m.generations;
    match e
    case Enter(_, _) => true
    case Built(i, _) => i < |gs| && gs[i].state == Constructing
    case BuildFailed(i) => i < |gs| && gs[i].state == Constructing
    case GiveBack(i) => i < |gs| && w.held[gs[i].id] > 0 && gs[i].borrowers > 0
    case InvalidateEvent(_, _) => true
    case CloseStart(id) => w.due[id] > 0
    case CloseDone(i, _) => i < |gs| && w.running[gs[i].id] > 0
  }

  function Step(w: World, e: Event): World
    requires Enabled(w, e)
  {
    var gs := w.m.generations;
    match e
    case Enter(key, expired) =>
      var (m, pass) := Acquire(w.m, key, expired);
      World(m,
            if pass.Borrowed? then w.held + multiset{pass.id} else w.held,
            if pass.MustClose? then w.due + multiset(pass.ids) else w.due, w.running, w.attempts)
    case Built(i, expired) =>
      var g := Finished(w.m, gs[i], expired);
      World(w.m.(generations := gs[i := g]),
            if g.state == Active then w.held + multiset{g.id} else w.held,
            if g.state == Closing then w.due + multiset{g.id} else w.due, w.running, w.attempts)
    case BuildFailed(i) => w.(m := w.m.(generations := Without(gs, gs[i].id)))
    case GiveBack(i) =>
      var g := Released(gs[i]);
      World(w.m.(generations := gs[i := g]), w.held - multiset{g.id},
            if gs[i].state == Retired && gs[i].borrowers == 1 then w.due + multiset{g.id} else w.due, w.running, w.attempts)
    case InvalidateEvent(shutdown, reopen) =>
      var (m, ids) := Invalidate(w.m, shutdown, reopen);
      w.(m := m, due := w.due + multiset(ids))
    case CloseStart(id) =>
      w.(due := w.due - multiset{id}, running := w.running + multiset{id}, attempts := w.attempts + multiset{id})
    case CloseDone(i, ok) =>
      w.(m := w.m.(generations := if ok then Without(gs, gs[i].id) else gs[i := gs[i].(state := CloseFailed)]),
         running := w.running - multiset{gs[i].id})
  }

  function Init(): World { World(Manager(0, false, [], 0), multiset{}, multiset{}, multiset{}, multiset{}) }

  ghost predicate Run(ws: seq<World>, es: seq<Event>) {
    && |ws| == |es| + 1
    && forall i | 0 <= i < |es| :: Enabled(ws[i], es[i]) && ws[i + 1] == Step(ws[i], es[i])
  }

  // ---------------------------------------------------------------- the invariant

  predicate IsOpen(g: Generation) { g.state == Constructing || g.state == Active }

  /** What the state of a generation says about its borrowers and about who closes it. */
  predicate GenerationOk(w: World, g: Generation) {
    && g.id < w.m.nextId && g.epoch <= w.m.epoch
    && w.held[g.id] == g.borrowers
    && (g.state == Active ==> g.epoch == w.m.epoch && !w.m.stopped)
    && (g.state == Retired ==> g.borrowers > 0)
    && (g.state != Active && g.state != Retired ==> g.borrowers == 0)
    && w.due[g.id] + w.running[g.id] == (if g.state == Closing then 1 else 0)
    && w.attempts[g.id] == (if g.state == CloseFailed then 1 else w.running[g.id])
  }

  predicate Absent(gs: seq<Generation>, id: nat) { forall i | 0 <= i < |gs| :: gs[i].id != id }

  /** Ids differ, and at most one generation is constructing or active. */
  predicate Apart(gs: seq<Generation>) {
    forall i, j | 0 <= i < j < |gs| :: gs[i].id != gs[j].id && !(IsOpen(gs[i]) && IsOpen(gs[j]))
  }

  ghost predicate Inv(w: World) {
    var gs := w.m.generations;
    && |gs| <= 2
    && Apart(gs)
    && (forall i | 0 <= i < |gs| :: GenerationOk(w, gs[i]))
    && (forall id: nat | Absent(gs, id) :: Gone(w, id))
  }

  /** Nothing is owed for a client that is not in the list. */
  predicate Gone(w: World, id: nat) {
    w.held[id] == w.due[id] == w.running[id] == 0 && w.attempts[id] <= (if id < w.m.nextId then 1 else 0)
  }

  lemma {:induction false} AbsentIsNotClosing(gs: seq<Generation>, id: nat)
    requires Absent(gs, id)
    ensures multiset(NewlyClosing(gs))[id] == 0
  {
    if gs != [] {
      AbsentIsNotClosing(gs[..|gs| - 1], id);
    }
  }

  lemma {:induction false} NewlyClosingCount(gs: seq<Generation>, i: nat)
    requires i < |gs| && forall j, k | 0 <= j < k < |gs| :: gs[j].id != gs[k].id
    ensures multiset(NewlyClosing(gs))[gs[i].id] == if Closes(gs[i]) then 1 else 0
  {
    var n, id := |gs| - 1, gs[i].id;
    var before, last := NewlyClosing(gs[..n]), if Closes(gs[n]) then [gs[n].id] else [];
    assert NewlyClosing(gs) == before + last;
    if i < n {
      NewlyClosingCount(gs[..n], i);
      assert gs[n].id != id;
    } else {
      AbsentIsNotClosing(gs[..n], id);
    }
  }

  /** Retiring, as `borrow` and `invalidate` do it; only `invalidate` moves the epoch and the flag. */
  function AfterRetiring(w: World, epoch: nat, stopped: bool): World {
    w.(m := w.m.(epoch := epoch, stopped := stopped, generations := RetireAll(w.m.generations)),
       due := w.due + multiset(NewlyClosing(w.m.generations)))
  }

  lemma RetiringKeeps(w: World, epoch: nat, stopped: bool)
    requires Inv(w) && epoch >= w.m.epoch
    ensures Inv(AfterRetiring(w, epoch, stopped))
    ensures forall i | 0 <= i < |w.m.generations| :: RetireAll(w.m.generations)[i].state != Active
  {
    var gs, w' := w.m.generations, AfterRetiring(w, epoch, stopped);
    var rs := RetireAll(gs);
    assert w'.m.generations == rs;
    forall i | 0 <= i < |gs| ensures GenerationOk(w', rs[i]) {
      RetiredGenerationOk(w, epoch, stopped, i);
    }
    RetiringKeepsShape(gs);
    forall id: nat | Absent(rs, id) ensures Gone(w', id) {
      assert Absent(gs, id) && Gone(w, id);
      AbsentIsNotClosing(gs, id);
    }
  }

  lemma RetiringKeepsShape(gs: seq<Generation>)
    requires Apart(gs)
    ensures Apart(RetireAll(gs))
    ensures forall i | 0 <= i < |gs| :: RetireAll(gs)[i].id == gs[i].id && RetireAll(gs)[i].state != Active
  {
    var rs := RetireAll(gs);
    assert forall i | 0 <= i < |gs| :: rs[i].id == gs[i].id && (IsOpen(rs[i]) ==> IsOpen(gs[i]));
  }

  lemma RetiredGenerationOk(w: World, epoch: nat, stopped: bool, i: nat)
    requires Inv(w) && epoch >= w.m.epoch && i < |w.m.generations|
    ensures GenerationOk(AfterRetiring(w, epoch, stopped), RetireOne(w.m.generations[i]))
  {
    assert GenerationOk(w, w.m.generations[i]);
    NewlyClosingCount(w.m.generations, i);
  }

  lemma ReservingKeeps(w: World, key: Key)
    requires Inv(w) && |w.m.generations| < 2 && forall i | 0 <= i < |w.m.generations| :: !IsOpen(w.m.generations[i])
    ensures Inv(w.(m := w.m.(generations := w.m.generations + [Generation(w.m.nextId, key, w.m.epoch, Constructing, 0)],
                             nextId := w.m.nextId + 1)))
  {
    var gs, added := w.m.generations, Generation(w.m.nextId, key, w.m.epoch, Constructing, 0);
    var w' := w.(m := w.m.(generations := gs + [added], nextId := w.m.nextId + 1));
    forall i | 0 <= i < |gs| ensures gs[i].id != w.m.nextId && GenerationOk(w', gs[i]) { assert GenerationOk(w, gs[i]); }
    assert Absent(gs, w.m.nextId) && Gone(w, w.m.nextId);
    assert GenerationOk(w', added);
    forall id: nat | Absent(gs + [added], id) ensures Gone(w', id) {
      assert (gs + [added])[|gs|].id != id;
      assert forall i | 0 <= i < |gs| :: (gs + [added])[i] == gs[i];
      assert Absent(gs, id) && Gone(w, id);
    }
  }

  /** A step that rewrites one generation and only moves obligations of that generation. */
  lemma ReplacingKeeps(w: World, w': World, i: nat, g: Generation)
    requires Inv(w) && i < |w.m.generations| && w'.m == w.m.(generations := w.m.generations[i := g])
    requires g.id == w.m.generations[i].id && GenerationOk(w', g)
    requires IsOpen(g) ==> IsOpen(w.m.generations[i])
    requires forall id | id != g.id ::
      w'.held[id] == w.held[id] && w'.due[id] == w.due[id] && w'.running[id] == w.running[id] && w'.attempts[id] == w.attempts[id]
    ensures Inv(w')
  {
    var gs := w.m.generations;
    forall j | 0 <= j < |gs| && j != i ensures GenerationOk(w', gs[j]) { assert GenerationOk(w, gs[j]); }
    forall id: nat | Absent(w'.m.generations, id) ensures Gone(w', id) {
      assert w'.m.generations[i].id != id;
      assert forall j | 0 <= j < |gs| :: gs[j].id == w'.m.generations[j].id;
      assert Absent(gs, id) && Gone(w, id);
    }
  }

  lemma {:induction false} WithoutStaysApart(gs: seq<Generation>, id: nat)
    requires Apart(gs)
    ensures |Without(gs, id)| <= |gs| && Apart(Without(gs, id))
  {
    if gs != [] {
      var n := |gs| - 1;
      PrefixIsApart(gs, n);
      WithoutStaysApart(gs[..n], id);
      var kept := Without(gs[..n], id);
      ApartSnoc(gs, kept);
      assert kept + [] == kept;
    }
  }

  lemma PrefixIsApart(gs: seq<Generation>, n: nat)
    requires Apart(gs) && n <= |gs|
    ensures Apart(gs[..n])
  {
  }

  lemma ApartSnoc(gs: seq<Generation>, kept: seq<Generation>)
    requires gs != [] && Apart(gs) && Apart(kept) && forall g | g in kept :: g in gs[..|gs| - 1]
    ensures Apart(kept + [gs[|gs| - 1]])
  {
    var n := |gs| - 1;
    forall i | 0 <= i < |kept| ensures kept[i].id != gs[n].id && !(IsOpen(kept[i]) && IsOpen(gs[n])) {
      assert kept[i] in kept;
      var k :| 0 <= k < n && gs[..n][k] == kept[i];
      assert gs[k] == kept[i];
    }
  }

  lemma RemovingKeeps(w: World, w': World, i: nat)
    requires Inv(w) && i < |w.m.generations|
    requires w'.m == w.m.(generations := Without(w.m.generations, w.m.generations[i].id))
    requires Gone(w', w.m.generations[i].id)
    requires forall id | id != w.m.generations[i].id ::
      w'.held[id] == w.held[id] && w'.due[id] == w.due[id] && w'.running[id] == w.running[id] && w'.attempts[id] == w.attempts[id]
    ensures Inv(w')
  {
    var gs, rest, gone := w.m.generations, w'.m.generations, w.m.generations[i].id;
    WithoutStaysApart(gs, gone);
    forall j | 0 <= j < |rest| ensures GenerationOk(w', rest[j]) {
      assert rest[j] in rest;
      var k :| 0 <= k < |gs| && gs[k] == rest[j];
      assert GenerationOk(w, gs[k]);
    }
    forall id: nat | Absent(rest, id) ensures Gone(w', id) {
      if id != gone {
        assert forall k | 0 <= k < |gs| && gs[k].id != gone :: gs[k] in rest && gs[k].id != id;
        assert Absent(gs, id) && Gone(w, id);
      }
    }
  }

  lemma EnterKeeps(w: World, key: Key, expired: bool)
    requires Inv(w)
    ensures Inv(Step(w, Enter(key, expired)))
  {
    var gs := w.m.generations;
    var pass := Acquire(w.m, key, expired).1;
    if pass.Borrowed? {
      var i := FindActive(gs, key, 0);
      assert GenerationOk(w, gs[i]);
      ReplacingKeeps(w, Step(w, Enter(key, expired)), i, gs[i].(borrowers := gs[i].borrowers + 1));
    } else if !w.m.stopped && !expired {
      EnterRetiringKeeps(w, key);
    }
  }

  lemma EnterRetiringKeeps(w: World, key: Key)
    requires Inv(w) && !w.m.stopped && FindActive(w.m.generations, key, 0) == |w.m.generations|
    ensures Inv(Step(w, Enter(key, false)))
  {
    RetiringKeeps(w, w.m.epoch, w.m.stopped);
    var r, w' := AfterRetiring(w, w.m.epoch, w.m.stopped), Step(w, Enter(key, false));
    if NewlyClosing(w.m.generations) != [] {
      assert w' == r;
    } else {
      assert r.due == w.due;
      if Acquire(w.m, key, false).1.Reserved? {
        ReservingKeeps(r, key);
      } else {
        assert w' == r;
      }
    }
  }

  lemma BuiltKeeps(w: World, i: nat, expired: bool)
    requires Inv(w) && Enabled(w, Built(i, expired))
    ensures Inv(Step(w, Built(i, expired)))
  {
    assert GenerationOk(w, w.m.generations[i]);
    ReplacingKeeps(w, Step(w, Built(i, expired)), i, Finished(w.m, w.m.generations[i], expired));
  }

  lemma GiveBackKeeps(w: World, i: nat)
    requires Inv(w) && Enabled(w, GiveBack(i))
    ensures Inv(Step(w, GiveBack(i)))
  {
    assert GenerationOk(w, w.m.generations[i]);
    ReplacingKeeps(w, Step(w, GiveBack(i)), i, Released(w.m.generations[i]));
  }

  lemma CloseStartKeeps(w: World, id: nat)
    requires Inv(w) && Enabled(w, CloseStart(id))
    ensures Inv(Step(w, CloseStart(id)))
  {
    assert !Absent(w.m.generations, id) by { assert !Gone(w, id); }
    var i :| 0 <= i < |w.m.generations| && w.m.generations[i].id == id;
    assert GenerationOk(w, w.m.generations[i]);
    ReplacingKeeps(w, Step(w, CloseStart(id)), i, w.m.generations[i]);
  }

  lemma CloseDoneKeeps(w: World, i: nat, ok: bool)
    requires Inv(w) && Enabled(w, CloseDone(i, ok))
    ensures Inv(Step(w, CloseDone(i, ok)))
  {
    var g := w.m.generations[i];
    assert GenerationOk(w, g);
    if ok {
      RemovingKeeps(w, Step(w, CloseDone(i, ok)), i);
    } else {
      ReplacingKeeps(w, Step(w, CloseDone(i, ok)), i, g.(state := CloseFailed));
    }
  }

  lemma StepKeeps(w: World, e: Event)
    requires Inv(w) && Enabled(w, e)
    ensures Inv(Step(w, e))
  {
    match e
    case Enter(key, expired) => EnterKeeps(w, key, expired);
    case Built(i, expired) => BuiltKeeps(w, i, expired);
    case BuildFailed(i) =>
      assert GenerationOk(w, w.m.generations[i]);
      RemovingKeeps(w, Step(w, e), i);
    case GiveBack(i) => GiveBackKeeps(w, i);
    case InvalidateEvent(shutdown, reopen) => RetiringKeeps(w, w.m.epoch + 1, Step(w, e).m.stopped);
    case CloseStart(id) => CloseStartKeeps(w, id);
    case CloseDone(i, ok) => CloseDoneKeeps(w, i, ok);
  }

  lemma {:induction false} RunKeeps(ws: seq<World>, es: seq<Event>, i: nat)
    requires Run(ws, es) && ws[0] == Init() && i < |ws|
    ensures Inv(ws[i])
  {
    if i > 0 {
      RunKeeps(ws, es, i - 1);
      StepKeeps(ws[i - 1], es[i - 1]);
    }
  }

  // ---------------------------------------------------------------- what holds in every run

  /** At most two generations; at most one of them constructing or active; an active one belongs to
      the current epoch of a manager that is not shut down; a retired one is still borrowed; one that
      is closing or failed to close is not. */
  lemma GenerationsAreBounded(ws: seq<World>, es: seq<Event>, i: nat)
    requires Run(ws, es) && ws[0] == Init() && i < |ws|
    ensures var m := ws[i].m; var gs := m.generations;
      && |gs| <= 2
      && (forall j, k | 0 <= j < k < |gs| :: !(IsOpen(gs[j]) && IsOpen(gs[k])))
      && (forall j | 0 <= j < |gs| :: gs[j].state == Active ==> gs[j].epoch == m.epoch && !m.stopped)
      && (forall j | 0 <= j < |gs| :: gs[j].state == Retired ==> gs[j].borrowers > 0)
      && (forall j | 0 <= j < |gs| :: gs[j].state in {Closing, CloseFailed} ==> gs[j].borrowers == 0)
  {
    RunKeeps(ws, es, i);
    var w := ws[i];
    assert forall j | 0 <= j < |w.m.generations| :: GenerationOk(w, w.m.generations[j]);
  }

  lemma AttemptedIsUnborrowed(w: World, id: nat)
    requires Inv(w)
    ensures w.attempts[id] <= 1
    ensures w.attempts[id] > 0 ==> w.held[id] == 0 && w.due[id] == 0
  {
    if Absent(w.m.generations, id) {
      assert Gone(w, id);
    } else {
      var i :| 0 <= i < |w.m.generations| && w.m.generations[i].id == id;
      assert GenerationOk(w, w.m.generations[i]);
    }
  }

  lemma {:induction false} AttemptsGrow(ws: seq<World>, es: seq<Event>, i: nat, j: nat, id: nat)
    requires Run(ws, es) && i <= j < |ws|
    ensures ws[i].attempts[id] <= ws[j].attempts[id]
    decreases j
  {
    if i < j {
      AttemptsGrow(ws, es, i, j - 1, id);
      assert ws[j] == Step(ws[j - 1], es[j - 1]);
    }
  }

  /** A client is closed at most once, and from the start of that close on nobody has it borrowed. */
  lemma ClosedOnceAndUnborrowed(ws: seq<World>, es: seq<Event>, i: nat, j: nat, id: nat)
    requires Run(ws, es) && ws[0] == Init() && i < j < |ws| && es[i] == CloseStart(id)
    ensures ws[i].held[id] == 0 && ws[j].held[id] == 0
    ensures j < |es| ==> es[j] != CloseStart(id)
  {
    RunKeeps(ws, es, i);
    assert Enabled(ws[i], es[i]) && ws[i + 1] == Step(ws[i], es[i]);
    RunKeeps(ws, es, i + 1);
    RunKeeps(ws, es, j);
    AttemptsGrow(ws, es, i + 1, j, id);
    AttemptedIsUnborrowed(ws[i + 1], id);
    AttemptedIsUnborrowed(ws[j], id);
    if j < |es| { assert Enabled(ws[j], es[j]); }
  }

  /** The step gives the client of generation `id` to a borrower. */
  predicate HandsOut(w: World, e: Event, id: nat)
    requires Enabled(w, e)
  {
    Step(w, e).held[id] > w.held[id]
  }

  lemma HandedOutIsCurrent(w: World, e: Event, id: nat)
    requires Inv(w) && Enabled(w, e) && HandsOut(w, e, id)
    ensures !w.m.stopped && w.m.epoch == Step(w, e).m.epoch
    ensures exists i | 0 <= i < |w.m.generations| ::
      w.m.generations[i].id == id && w.m.generations[i].epoch == w.m.epoch && (e.Enter? ==> w.m.generations[i].key == e.key)
  {
    if e.Enter? {
      var i := FindActive(w.m.generations, e.key, 0);
      assert i < |w.m.generations| && w.m.generations[i].id == id;
      assert GenerationOk(w, w.m.generations[i]);
    } else {
      assert e.Built? && w.m.generations[e.at].id == id;
    }
  }

  lemma {:induction false} EpochGrows(ws: seq<World>, es: seq<Event>, i: nat, j: nat)
    requires Run(ws, es) && i <= j < |ws|
    ensures ws[i].m.epoch <= ws[j].m.epoch
    decreases j
  {
    if i < j {
      EpochGrows(ws, es, i, j - 1);
      assert ws[j] == Step(ws[j - 1], es[j - 1]);
    }
  }

  /** No client reserved before an invalidation is handed out after it, not even one whose
      construction was still running. */
  lemma InvalidatedClientsAreNotHandedOut(ws: seq<World>, es: seq<Event>, i: nat, j: nat, id: nat)
    requires Run(ws, es) && ws[0] == Init() && i < j < |es| && es[i].InvalidateEvent?
    requires HandsOut(ws[j], es[j], id)
    ensures exists k | 0 <= k < |ws[j].m.generations| ::
      ws[j].m.generations[k].id == id && ws[j].m.generations[k].epoch > ws[i].m.epoch
  {
    RunKeeps(ws, es, j);
    HandedOutIsCurrent(ws[j], es[j], id);
    assert ws[i + 1] == Step(ws[i], es[i]);
    EpochGrows(ws, es, i + 1, j);
  }

  /** Every thread that owes something still finds its generation in the list, so giving back,
      closing and removing never miss. */
  lemma ObligationsFindTheirGeneration(w: World, id: nat)
    requires Inv(w) && w.held[id] + w.due[id] + w.running[id] > 0
    ensures exists i | 0 <= i < |w.m.generations| ::
      && w.m.generations[i].id == id
      && (w.held[id] > 0 ==> w.m.generations[i].borrowers > 0 && w.m.generations[i].state in {Active, Retired})
      && (w.due[id] + w.running[id] > 0 ==> w.m.generations[i].state == Closing)
  {
    assert !Absent(w.m.generations, id) by { assert !Gone(w, id); }
    var i :| 0 <= i < |w.m.generations| && w.m.generations[i].id == id;
    assert GenerationOk(w, w.m.generations[i]);
  }

  lemma EnterKeepsIds(m: Manager, key: Key, expired: bool, i: nat)
    requires i < |m.generations|
    ensures |Acquire(m, key, expired).0.generations| >= |m.generations|
    ensures Acquire(m, key, expired).0.generations[i].id == m.generations[i].id
  {
    assert RetireAll(m.generations)[i] == RetireOne(m.generations[i]);
  }

  lemma OtherStepsKeepIds(w: World, e: Event, i: nat)
    requires Enabled(w, e) && i < |w.m.generations| && !e.BuildFailed? && !(e.CloseDone? && e.ok)
    ensures |Step(w, e).m.generations| >= |w.m.generations| && Step(w, e).m.generations[i].id == w.m.generations[i].id
  {
    match e
    case Enter(key, expired) => EnterKeepsIds(w.m, key, expired, i);
    case InvalidateEvent(_, _) => assert RetireAll(w.m.generations)[i] == RetireOne(w.m.generations[i]);
    case Built(_, _) =>
    case GiveBack(_) =>
    case CloseStart(_) =>
    case CloseDone(_, _) =>
  }

  /** A generation leaves the list only by a failed construction or a close that succeeded. */
  lemma ClientsLeaveOnlyWhenClosed(w: World, e: Event, i: nat)
    requires Inv(w) && Enabled(w, e) && i < |w.m.generations|
    ensures Absent(Step(w, e).m.generations, w.m.generations[i].id) ==>
      || (e == BuildFailed(i) && w.m.generations[i].state == Constructing)
      || (e == CloseDone(i, true) && w.running[w.m.generations[i].id] > 0)
  {
    var gs, gs' := w.m.generations, Step(w, e).m.generations;
    if e != BuildFailed(i) && e != CloseDone(i, true) {
      if e.BuildFailed? || (e.CloseDone? && e.ok) {
        assert gs[i] in gs';
      } else {
        OtherStepsKeepIds(w, e, i);
      }
    }
  }

  lemma {:induction false} NewlyClosingIff(gs: seq<Generation>, id: nat)
    ensures id in NewlyClosing(gs) <==> exists i :: 0 <= i < |gs| && gs[i].id == id && Closes(gs[i])
  {
    if |gs| > 0 {
      var n := |gs| - 1;
      NewlyClosingIff(gs[..n], id);
      if i :| 0 <= i < |gs| && gs[i].id == id && Closes(gs[i]) {
        assert i < n ==> gs[..n][i] == gs[i];
      }
    }
  }

  /** An active client under this key. */
  predicate Fits(g: Generation, key: Key) { g.state == Active && g.key == key }

  /** Active and lent to nobody. */
  predicate Idle(g: Generation) { g.state == Active && g.borrowers == 0 }

  /** What one pass of `borrow` decides, in every state a run can reach. A second client is reserved even while the
      first is still lent out, closing or failed to close, but not while one is under construction. */
  lemma BorrowDecides(w: World, key: Key, expired: bool)
    requires Inv(w)
    ensures var gs, pass := w.m.generations, Acquire(w.m, key, expired).1;
            var shared := exists i :: 0 <= i < |gs| && Fits(gs[i], key);
            var idle := exists i :: 0 <= i < |gs| && Idle(gs[i]);
            && (pass == ShutDown <==> w.m.stopped)
            && (pass == OutOfBudget <==> !w.m.stopped && expired)
            && (pass.Borrowed? <==> !w.m.stopped && !expired && shared)
            && (pass.MustClose? <==> !w.m.stopped && !expired && !shared && idle)
            && (pass.Reserved? <==> !w.m.stopped && !expired && !shared && !idle && |gs| <= 1
                                    && forall i :: 0 <= i < |gs| ==> gs[i].state != Constructing)
  {
    var gs := w.m.generations;
    var i := FindActive(gs, key, 0);
    if i < |gs| { assert Fits(gs[i], key); }
    ClosesWhatIsIdle(w);
    ConstructingStays(gs);
  }

  lemma ClosesWhatIsIdle(w: World)
    requires Inv(w)
    ensures var gs := w.m.generations;
            && (forall id :: id in NewlyClosing(gs) <==> exists i :: 0 <= i < |gs| && gs[i].id == id && Idle(gs[i]))
            && (|NewlyClosing(gs)| > 0 <==> exists i :: 0 <= i < |gs| && Idle(gs[i]))
  {
    var gs := w.m.generations;
    forall k | 0 <= k < |gs| ensures Closes(gs[k]) <==> Idle(gs[k]) {
      assert GenerationOk(w, gs[k]);
    }
    forall id ensures id in NewlyClosing(gs) <==> exists k :: 0 <= k < |gs| && gs[k].id == id && Idle(gs[k]) {
      NewlyClosingIff(gs, id);
    }
    if |NewlyClosing(gs)| > 0 { assert NewlyClosing(gs)[0] in NewlyClosing(gs); }
    if k :| 0 <= k < |gs| && Idle(gs[k]) { assert gs[k].id in NewlyClosing(gs); }
  }

  lemma ConstructingStays(gs: seq<Generation>)
    ensures HasConstructing(RetireAll(gs)) <==> exists i :: 0 <= i < |gs| && gs[i].state == Constructing
  {
    if i :| 0 <= i < |gs| && gs[i].state == Constructing { assert RetireAll(gs)[i].state == Constructing; }
    assert forall k | 0 <= k < |gs| :: RetireAll(gs)[k].state == Constructing <==> gs[k].state == Constructing;
  }

  /** What the pass leaves behind: a shared client gains one borrower; a reservation joins the list under the current
      epoch; every other client that was active is retired if lent out and closing if idle. */
  lemma BorrowLeaves(w: World, key: Key, expired: bool)
    requires Inv(w)
    ensures var gs, m, pass := w.m.generations, Acquire(w.m, key, expired).0, Acquire(w.m, key, expired).1;
            && m.epoch == w.m.epoch && m.stopped == w.m.stopped
            && (pass == ShutDown || pass == OutOfBudget ==> m == w.m)
            && (pass.Borrowed? ==> |m.generations| == |gs| && forall i :: 0 <= i < |gs| ==>
                  m.generations[i] == if gs[i].id == pass.id then gs[i].(borrowers := gs[i].borrowers + 1) else gs[i])
            && (pass.MustClose? || pass.Reserved? || pass == Waits ==>
                  && |gs| <= |m.generations| && (forall i :: 0 <= i < |gs| ==> Yields(gs[i], m.generations[i]))
                  && m.generations[|gs|..] == if pass.Reserved? then [Generation(pass.id, key, w.m.epoch, Constructing, 0)] else [])
            && (pass.MustClose? ==> forall id :: id in pass.ids <==> exists i :: 0 <= i < |gs| && gs[i].id == id && Idle(gs[i]))
  {
    var gs := w.m.generations;
    forall k | 0 <= k < |gs| ensures Yields(gs[k], RetireOne(gs[k])) {
      assert GenerationOk(w, gs[k]);
    }
    ClosesWhatIsIdle(w);
  }

  /** An invalidation ends the epoch and makes every active client give way; a shutdown wins over a reopening. */
  lemma InvalidationLeaves(w: World, shutdown: bool, reopen: bool)
    requires Inv(w)
    ensures var gs, (m, ids) := w.m.generations, Invalidate(w.m, shutdown, reopen);
            && m.epoch == w.m.epoch + 1 && (m.stopped <==> shutdown || (w.m.stopped && !reopen))
            && |m.generations| == |gs| && (forall i :: 0 <= i < |gs| ==> Yields(gs[i], m.generations[i]))
            && forall id :: id in ids <==> exists i :: 0 <= i < |gs| && gs[i].id == id && Idle(gs[i])
  {
    forall k | 0 <= k < |w.m.generations| ensures Yields(w.m.generations[k], RetireOne(w.m.generations[k])) {
      assert GenerationOk(w, w.m.generations[k]);
    }
    ClosesWhatIsIdle(w);
  }

  /** A finished construction is lent out, to one borrower, unless the manager was shut down or invalidated meanwhile or
      time ran out; then it has to be closed. */
  lemma BuiltIsLentIff(w: World, i: nat, expired: bool)
    requires Inv(w) && Enabled(w, Built(i, expired))
    ensures var g, w' := w.m.generations[i], Step(w, Built(i, expired));
            && (HandsOut(w, Built(i, expired), g.id) <==> !w.m.stopped && g.epoch == w.m.epoch && !expired)
            && w'.held[g.id] + w'.due[g.id] == 1
            && forall k :: 0 <= k < |w.m.generations| && k != i ==> w'.m.generations[k] == w.m.generations[k]
  {
    assert GenerationOk(w, w.m.generations[i]);
  }

  /** Giving a client back makes it due for closing exactly when it is retired and nobody else has it. */
  lemma LastBorrowerCloses(w: World, i: nat)
    requires Inv(w) && Enabled(w, GiveBack(i))
    ensures var g, w' := w.m.generations[i], Step(w, GiveBack(i));
            && w'.held[g.id] == w.held[g.id] - 1
            && w'.due[g.id] == (if g.state == Retired && w.held[g.id] == 1 then 1 else 0)
            && forall k :: 0 <= k < |w.m.generations| && k != i ==> w'.m.generations[k] == w.m.generations[k]
  {
    assert GenerationOk(w, w.m.generations[i]);
  }

  /** How a client gives way to one under another key. */
  predicate Yields(g: Generation, h: Generation) {
    h == if g.state != Active then g else g.(state := if g.borrowers > 0 then Retired else Closing)
  }

  predicate Exhausted(w: World) {
    |w.m.generations| == 2 && w.m.generations[0].state == w.m.generations[1].state == CloseFailed
  }

  /** Two clients that failed to close use up the manager for good: nothing is reserved or handed
      out in any continuation, with or without invalidation, shutdown or reopening. */
  lemma ExhaustedForGood(w: World, e: Event)
    requires Inv(w) && Exhausted(w) && Enabled(w, e)
    ensures Exhausted(Step(w, e)) && forall id :: !HandsOut(w, e, id)
  {
    var gs := w.m.generations;
    NothingToRetire(gs);
    assert GenerationOk(w, gs[0]) && GenerationOk(w, gs[1]);
    assert !e.GiveBack? && !e.CloseDone? && !e.Built? && !e.BuildFailed?;
  }

  lemma NothingToRetire(gs: seq<Generation>)
    requires |gs| == 2 && gs[0].state == gs[1].state == CloseFailed
    ensures RetireAll(gs) == gs && NewlyClosing(gs) == []
    ensures forall key :: FindActive(gs, key, 0) == 2
  {
    assert gs[..2] == gs && gs[..1] == [gs[0]] && gs[..1][..0] == [];
    assert NewlyClosing(gs[..1]) == [];
  }

  lemma {:induction false} ExhaustedRun(ws: seq<World>, es: seq<Event>, i: nat, j: nat, id: nat)
    requires Run(ws, es) && ws[0] == Init() && i <= j < |es| && Exhausted(ws[i])
    ensures Exhausted(ws[j]) && !HandsOut(ws[j], es[j], id)
    decreases j
  {
    if i < j {
      ExhaustedRun(ws, es, i, j - 1, id);
      ExhaustedStep(ws, es, j - 1, id);
    }
    ExhaustedStep(ws, es, j, id);
  }

  lemma ExhaustedStep(ws: seq<World>, es: seq<Event>, j: nat, id: nat)
    requires Run(ws, es) && ws[0] == Init() && j < |es| && Exhausted(ws[j])
    ensures Exhausted(ws[j + 1]) && !HandsOut(ws[j], es[j], id)
  {
    RunKeeps(ws, es, j);
    ExhaustedForGood(ws[j], es[j]);
  }
}

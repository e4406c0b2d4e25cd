/** The reference-counted SmartPointer of Other/ErrCode/errCode.cpp.  The heap holds the Counter objects by
    address; a smart pointer is a variable that holds the address of its counter, so that copies alias.
    A program is any sequence of constructions, copies, assignments and destructions. */
module SmartPointer {

  /** Raw objects are numbered as they are allocated, so that an address used again after a deletion is another
      object; 0 is the null pointer, whose deletion does nothing. */
  const NULL: nat := 0

  /** class Counter: the raw object and the reference count */
  datatype Counter = Counter(ptr: nat, cnt: int)

  /** pointers: the counter of each live smart pointer
      counters: the counters allocated and not yet deleted
      created: the object each counter was constructed for, counters being numbered in that order
      freed, deleted: the counters and the objects, null included, that `delete` was applied to, in order
      wild: whether a counter was dereferenced that is not allocated */
  datatype Heap = Heap(pointers: map<nat, nat>, counters: map<nat, Counter>,
                       created: seq<nat>, freed: seq<nat>, deleted: seq<nat>, wild: bool)

  datatype Op = Create(sp: nat, obj: nat) | Copy(sp: nat, from: nat) | Assign(sp: nat, from: nat) | Destroy(sp: nat)

  const EMPTY := Heap(map[], map[], [], [], [], false)

  /** ++ptr_counter->cnt */
  function Take(h: Heap, a: nat): Heap {
    if a !in h.counters then h.(wild := true)
    else h.(counters := h.counters[a := h.counters[a].(cnt := h.counters[a].cnt + 1)])
  }

  /** --ptr_counter->cnt, and the deletion of the counter, hence of its object, if that makes it zero */
  function Drop(h: Heap, a: nat): Heap {
    if a !in h.counters then h.(wild := true)
    else if h.counters[a].cnt - 1 == 0 then
      h.(counters := h.counters - {a}, freed := h.freed + [a], deleted := h.deleted + [h.counters[a].ptr])
    else h.(counters := h.counters[a := h.counters[a].(cnt := h.counters[a].cnt - 1)])
  }

  /** The heap with a new counter, before its first pointer holds it. */
  function WithNew(h: Heap, obj: nat): Heap {
    h.(counters := h.counters[|h.created| := Counter(obj, 1)], created := h.created + [obj])
  }

  function Bind(h: Heap, sp: nat, a: nat): Heap {
    h.(pointers := h.pointers[sp := a])
  }

  function Unbind(h: Heap, sp: nat): Heap {
    h.(pointers := h.pointers - {sp})
  }

  /** A constructor needs a new variable, the other operations need live ones; otherwise the operation is
      not part of any program, and nothing happens. */
  predicate Legal(h: Heap, op: Op) {
    match op
    case Create(sp, _) => sp !in h.pointers
    case Copy(sp, from) => sp !in h.pointers && from in h.pointers
    case Assign(sp, from) => sp in h.pointers && from in h.pointers
    case Destroy(sp) => sp in h.pointers
  }

  function Step(h: Heap, op: Op): Heap {
    if !Legal(h, op) then h else
    match op
    case Create(sp, obj) => Bind(WithNew(h, obj), sp, |h.created|)
    case Copy(sp, from) => Bind(Take(h, h.pointers[from]), sp, h.pointers[from])
    case Assign(sp, from) => Bind(Drop(Take(h, h.pointers[from]), h.pointers[sp]), sp, h.pointers[from])
    case Destroy(sp) => Unbind(Drop(h, h.pointers[sp]), sp)
  }

  function Run(h: Heap, ops: seq<Op>): Heap {
    if ops == [] then h else Step(Run(h, ops[..|ops| - 1]), ops[|ops| - 1])
  }

  // ---------------------------------------------------------------- counting references

  /** The live smart pointers that share a counter. */
  function Owners(h: Heap, a: nat): set<nat> {
    set sp | sp in h.pointers && h.pointers[sp] == a
  }

  /** Every count is the number of owners, plus references in transit: counted already, or still, while no
      variable holds them. */
  ghost predicate Counted(h: Heap, transit: multiset<nat>) {
    && (forall sp :: sp in h.pointers ==> h.pointers[sp] in h.counters)
    && (forall a :: a in transit ==> a in h.counters)
    && (forall a :: a in h.counters ==> h.counters[a].cnt == |Owners(h, a)| + transit[a] && h.counters[a].cnt >= 1)
  }

  /** Every counter made is either allocated or was deleted, once; an object was deleted when its counter
      was. */
  ghost predicate Logged(h: Heap) {
    && !h.wild
    && (forall a :: a in h.counters ==> a < |h.created| && h.counters[a].ptr == h.created[a])
    && (forall i :: 0 <= i < |h.freed| ==> h.freed[i] < |h.created| && h.freed[i] !in h.counters)
    && NoRepeats(h.freed)
    && (forall a :: 0 <= a < |h.created| ==> a in h.counters || a in h.freed)
    && |h.deleted| == |h.freed|
    && (forall i :: 0 <= i < |h.freed| ==> h.deleted[i] == h.created[h.freed[i]])
  }

  ghost predicate Inv(h: Heap) {
    Counted(h, multiset{}) && Logged(h)
  }

  lemma TakeCounts(h: Heap, transit: multiset<nat>, a: nat)
    requires Counted(h, transit) && Logged(h) && a in h.counters
    ensures Counted(Take(h, a), transit + multiset{a}) && Logged(Take(h, a))
  {
    var h' := Take(h, a);
    assert forall b :: Owners(h', b) == Owners(h, b);
  }

  lemma DropCounted(h: Heap, transit: multiset<nat>, a: nat)
    requires Counted(h, transit) && a in transit
    ensures Counted(Drop(h, a), transit - multiset{a})
  {
    var h' := Drop(h, a);
    assert forall b :: Owners(h', b) == Owners(h, b);
    forall sp | sp in h.pointers
      ensures h.pointers[sp] in h'.counters
    {
      if h.pointers[sp] == a {
        assert sp in Owners(h, a);
      }
    }
  }

  /** A counter is deleted, with its object. */
  lemma DeletedLogged(h: Heap, a: nat)
    requires Logged(h) && a in h.counters && h.counters[a].cnt - 1 == 0
    ensures Logged(Drop(h, a))
  {
    var h' := Drop(h, a);
    assert h'.freed[|h.freed|] == a;
    forall b | 0 <= b < |h.created|
      ensures b in h'.counters || b in h'.freed
    {
      assert b == a || b in h.counters || b in h.freed;
    }
  }

  lemma DropLogged(h: Heap, a: nat)
    requires Logged(h) && a in h.counters
    ensures Logged(Drop(h, a))
  {
    if h.counters[a].cnt - 1 == 0 {
      DeletedLogged(h, a);
    }
  }

  lemma DropCounts(h: Heap, transit: multiset<nat>, a: nat)
    requires Counted(h, transit) && Logged(h) && a in transit
    ensures Counted(Drop(h, a), transit - multiset{a}) && Logged(Drop(h, a))
  {
    DropCounted(h, transit, a);
    DropLogged(h, a);
  }

  lemma BindCounts(h: Heap, transit: multiset<nat>, sp: nat, a: nat)
    requires Counted(h, transit) && a in transit && sp !in h.pointers
    ensures Counted(Bind(h, sp, a), transit - multiset{a})
  {
    var h' := Bind(h, sp, a);
    assert Owners(h', a) == Owners(h, a) + {sp};
    assert forall b :: b != a ==> Owners(h', b) == Owners(h, b);
  }

  lemma UnbindCounts(h: Heap, transit: multiset<nat>, sp: nat)
    requires Counted(h, transit) && sp in h.pointers
    ensures Counted(Unbind(h, sp), transit + multiset{h.pointers[sp]})
  {
    var h', a := Unbind(h, sp), h.pointers[sp];
    assert Owners(h', a) == Owners(h, a) - {sp};
    assert forall b :: b != a ==> Owners(h', b) == Owners(h, b);
  }

  lemma NewCounted(h: Heap, obj: nat)
    requires Counted(h, multiset{}) && |h.created| !in h.counters
    ensures Counted(WithNew(h, obj), multiset{|h.created|})
  {
    var h', a := WithNew(h, obj), |h.created|;
    assert forall b :: Owners(h', b) == Owners(h, b);
    assert Owners(h', a) == {};
  }

  lemma CreateInv(h: Heap, sp: nat, obj: nat)
    requires Inv(h) && sp !in h.pointers
    ensures Inv(Step(h, Create(sp, obj)))
  {
    var a := |h.created|;
    NewCounted(h, obj);
    BindCounts(WithNew(h, obj), multiset{a}, sp, a);
    assert multiset{a} - multiset{a} == multiset{};
  }

  lemma CopyInv(h: Heap, sp: nat, from: nat)
    requires Inv(h) && sp !in h.pointers && from in h.pointers
    ensures Inv(Step(h, Copy(sp, from)))
  {
    var a := h.pointers[from];
    TakeCounts(h, multiset{}, a);
    assert multiset{} + multiset{a} == multiset{a};
    BindCounts(Take(h, a), multiset{a}, sp, a);
    assert multiset{a} - multiset{a} == multiset{};
  }

  lemma DestroyInv(h: Heap, sp: nat)
    requires Inv(h) && sp in h.pointers
    ensures Inv(Step(h, Destroy(sp)))
  {
    var a := h.pointers[sp];
    UnbindCounts(h, multiset{}, sp);
    assert multiset{} + multiset{a} == multiset{a};
    DropCounts(Unbind(h, sp), multiset{a}, a);
    assert multiset{a} - multiset{a} == multiset{};
    DestroyAs(h, sp);
  }

  /** Dropping looks at the counters only, so the variable may be unbound first. */
  lemma DestroyAs(h: Heap, sp: nat)
    requires sp in h.pointers
    ensures Step(h, Destroy(sp)) == Drop(Unbind(h, sp), h.pointers[sp])
  {
  }

  lemma AssignAs(h: Heap, sp: nat, from: nat)
    requires sp in h.pointers && from in h.pointers
    ensures var a, b := h.pointers[sp], h.pointers[from];
      Step(h, Assign(sp, from)) == Bind(Drop(Unbind(Take(h, b), sp), a), sp, b)
  {
    assert (h.pointers - {sp})[sp := h.pointers[from]] == h.pointers[sp := h.pointers[from]];
  }

  /** The variable gives up its counter, while a reference to b is in transit. */
  lemma GiveUp(h: Heap, sp: nat, b: nat)
    requires Counted(h, multiset{b}) && Logged(h) && sp in h.pointers
    ensures var h' := Drop(Unbind(h, sp), h.pointers[sp]);
      Counted(h', multiset{b}) && Logged(h') && sp !in h'.pointers
  {
    var a := h.pointers[sp];
    UnbindCounts(h, multiset{b}, sp);
    assert multiset{b} + multiset{a} == multiset{b, a};
    DropCounts(Unbind(h, sp), multiset{b, a}, a);
    assert multiset{b, a} - multiset{a} == multiset{b};
  }

  /** An assignment, also when both sides share a counter or are the same variable. */
  lemma AssignInv(h: Heap, sp: nat, from: nat)
    requires Inv(h) && sp in h.pointers && from in h.pointers
    ensures Inv(Step(h, Assign(sp, from)))
  {
    var a, b := h.pointers[sp], h.pointers[from];
    TakeCounts(h, multiset{}, b);
    assert multiset{} + multiset{b} == multiset{b};
    GiveUp(Take(h, b), sp, b);
    BindCounts(Drop(Unbind(Take(h, b), sp), a), multiset{b}, sp, b);
    assert multiset{b} - multiset{b} == multiset{};
    AssignAs(h, sp, from);
  }

  /** Every operation keeps the counts right and the logs clean. */
  lemma StepInv(h: Heap, op: Op)
    requires Inv(h)
    ensures Inv(Step(h, op))
  {
    if Legal(h, op) {
      match op
      case Create(sp, obj) => CreateInv(h, sp, obj);
      case Copy(sp, from) => CopyInv(h, sp, from);
      case Assign(sp, from) => AssignInv(h, sp, from);
      case Destroy(sp) => DestroyInv(h, sp);
    }
  }

  lemma {:induction false} RunInv(ops: seq<Op>)
    ensures Inv(Run(EMPTY, ops))
  {
    if ops != [] {
      RunInv(ops[..|ops| - 1]);
      StepInv(Run(EMPTY, ops[..|ops| - 1]), ops[|ops| - 1]);
    }
  }

  // ---------------------------------------------------------------- main results

  /** In every run: no deleted counter is touched, every count is the number of live pointers that share the
      counter, and a counter has been deleted once if it has no owner, and not at all otherwise. */
  lemma CountsAreOwners(ops: seq<Op>, a: nat)
    ensures var h := Run(EMPTY, ops);
      && !h.wild
      && (a in h.counters ==> h.counters[a].cnt == |Owners(h, a)|)
      && (a in h.counters <==> Owners(h, a) != {})
      && multiset(h.freed)[a] == (if a < |h.created| && Owners(h, a) == {} then 1 else 0)
  {
    RunInv(ops);
    var h := Run(EMPTY, ops);
    AllocatedIffOwned(h, a);
    CountOnce(h.freed, a);
  }

  lemma {:induction false} CountOnce(s: seq<nat>, x: nat)
    requires NoRepeats(s)
    ensures multiset(s)[x] == if x in s then 1 else 0
  {
    if s != [] {
      CountOnce(s[1..], x);
      assert s == [s[0]] + s[1..];
    }
  }

  /** What the variables name, by the meaning of the operations: a construction from a raw pointer names the next
      object handed over, a copy and an assignment what the other side names. */
  datatype Names = Names(of: map<nat, nat>, made: seq<nat>)

  function NamedNext(b: Names, op: Op): Names {
    match op
    case Create(sp, obj) => if sp in b.of then b else Names(b.of[sp := |b.made|], b.made + [obj])
    case Copy(sp, from) => if sp in b.of || from !in b.of then b else b.(of := b.of[sp := b.of[from]])
    case Assign(sp, from) => if sp in b.of && from in b.of then b.(of := b.of[sp := b.of[from]]) else b
    case Destroy(sp) => if sp in b.of then b.(of := b.of - {sp}) else b
  }

  function Named(ops: seq<Op>): Names {
    if ops == [] then Names(map[], []) else NamedNext(Named(ops[..|ops| - 1]), ops[|ops| - 1])
  }

  lemma StepNames(h: Heap, op: Op)
    ensures Names(Step(h, op).pointers, Step(h, op).created) == NamedNext(Names(h.pointers, h.created), op)
  {
  }

  lemma {:induction false} PointersAreNames(ops: seq<Op>)
    ensures Names(Run(EMPTY, ops).pointers, Run(EMPTY, ops).created) == Named(ops)
  {
    if ops != [] {
      PointersAreNames(ops[..|ops| - 1]);
      StepNames(Run(EMPTY, ops[..|ops| - 1]), ops[|ops| - 1]);
    }
  }

  /** In every run the variables hold the counters of just what they name, and each of these counters that of the
      object that was handed over. */
  lemma HoldsWhatItNames(ops: seq<Op>)
    ensures var h := Run(EMPTY, ops);
      && h.pointers == Named(ops).of && h.created == Named(ops).made
      && forall sp :: sp in h.pointers ==>
           h.pointers[sp] in h.counters && h.pointers[sp] < |h.created| &&
           h.counters[h.pointers[sp]].ptr == h.created[h.pointers[sp]]
  {
    RunInv(ops);
    PointersAreNames(ops);
  }

  /** A counter is allocated as long as it has an owner. */
  lemma AllocatedIffOwned(h: Heap, a: nat)
    requires Inv(h)
    ensures a in h.counters <==> Owners(h, a) != {}
  {
    if a in h.counters {
      assert |Owners(h, a)| >= 1;
    }
  }

  /** The two ways in which the heap goes on: counters stay, or one of them goes, with its object. */
  ghost predicate Keeps(h: Heap, h': Heap) {
    h.counters.Keys <= h'.counters.Keys && h'.freed == h.freed && h'.deleted == h.deleted
  }

  ghost predicate Deletes(h: Heap, h': Heap, a: nat) {
    && a in h.counters && h'.counters.Keys == h.counters.Keys - {a}
    && h'.freed == h.freed + [a] && h'.deleted == h.deleted + [h.counters[a].ptr]
  }

  lemma StepGoesOn(h: Heap, op: Op) returns (a: nat)
    requires Inv(h)
    ensures Keeps(h, Step(h, op)) || Deletes(h, Step(h, op), a)
  {
    a := if (op.Assign? || op.Destroy?) && op.sp in h.pointers then h.pointers[op.sp] else 0;
  }

  /** An operation deletes exactly the counter whose last owner it takes away, with its object. */
  lemma DeletesWithTheLast(h: Heap, op: Op, a: nat)
    requires Inv(h)
    ensures var h' := Step(h, op);
      (Owners(h, a) != {} && Owners(h', a) == {})
        <==> (h'.freed == h.freed + [a] && a < |h.created| && h'.deleted == h.deleted + [h.created[a]])
  {
    StepInv(h, op);
    var h' := Step(h, op);
    var b := StepGoesOn(h, op);
    AllocatedIffOwned(h, a);
    AllocatedIffOwned(h', a);
    if Deletes(h, h', b) {
      assert h'.freed[|h.freed|] == b;
    }
  }

  /** An operation that takes no last owner away deletes nothing. */
  lemma KeepsTheOwned(h: Heap, op: Op)
    requires Inv(h) && forall b :: Owners(h, b) != {} ==> Owners(Step(h, op), b) != {}
    ensures Step(h, op).freed == h.freed && Step(h, op).deleted == h.deleted
  {
    StepInv(h, op);
    var b := StepGoesOn(h, op);
    AllocatedIffOwned(h, b);
    AllocatedIffOwned(Step(h, op), b);
  }

  /** The objects of the counters that are allocated. */
  function Held(created: seq<nat>, live: set<nat>): multiset<nat> {
    if created == [] then multiset{}
    else
      var a := |created| - 1;
      Held(created[..a], live) + if a in live then multiset{created[a]} else multiset{}
  }

  lemma {:induction false} HeldWithout(created: seq<nat>, live: set<nat>, a: nat)
    requires a < |created| && a in live
    ensures Held(created, live) == Held(created, live - {a}) + multiset{created[a]}
  {
    var n := |created| - 1;
    if a < n {
      HeldWithout(created[..n], live, a);
    } else {
      HeldSame(created[..n], live, live - {a});
    }
  }

  lemma {:induction false} HeldSame(created: seq<nat>, live: set<nat>, live': set<nat>)
    requires forall a :: 0 <= a < |created| ==> (a in live <==> a in live')
    ensures Held(created, live) == Held(created, live')
  {
    if created != [] {
      HeldSame(created[..|created| - 1], live, live');
    }
  }

  ghost predicate Balanced(h: Heap) {
    multiset(h.created) == multiset(h.deleted) + Held(h.created, h.counters.Keys)
  }

  lemma DropBalanced(h: Heap, a: nat)
    requires Logged(h) && Balanced(h)
    ensures Balanced(Drop(h, a))
  {
    if a in h.counters {
      if h.counters[a].cnt - 1 == 0 {
        HeldWithout(h.created, h.counters.Keys, a);
        assert Drop(h, a).counters.Keys == h.counters.Keys - {a};
      } else {
        assert Drop(h, a).counters.Keys == h.counters.Keys;
      }
    }
  }

  lemma TakeBalanced(h: Heap, a: nat)
    requires Logged(h) && Balanced(h)
    ensures Balanced(Take(h, a)) && (a in h.counters ==> Logged(Take(h, a)))
  {
    if a in h.counters {
      assert Take(h, a).counters.Keys == h.counters.Keys;
    }
  }

  lemma CreateBalanced(h: Heap, sp: nat, obj: nat)
    requires Inv(h) && Balanced(h) && sp !in h.pointers
    ensures Balanced(Step(h, Create(sp, obj)))
  {
    var a := |h.created|;
    var created, live := h.created + [obj], h.counters.Keys;
    assert created[..a] == h.created;
    assert Step(h, Create(sp, obj)).counters.Keys == live + {a};
    HeldSame(h.created, live, live + {a});
  }

  lemma StepBalanced(h: Heap, op: Op)
    requires Inv(h) && Balanced(h)
    ensures Balanced(Step(h, op))
  {
    if Legal(h, op) {
      match op
      case Create(sp, obj) => CreateBalanced(h, sp, obj);
      case Copy(sp, from) => TakeBalanced(h, h.pointers[from]);
      case Assign(sp, from) =>
        TakeBalanced(h, h.pointers[from]);
        DropBalanced(Take(h, h.pointers[from]), h.pointers[sp]);
      case Destroy(sp) => DropBalanced(h, h.pointers[sp]);
    }
  }

  /** Conservation: in every run the objects handed to smart pointers are those deleted and those still held
      by a counter, with multiplicity.  So once the last smart pointer is gone every object has been deleted
      as often as it was handed over: once, if its program wraps each raw pointer once. */
  lemma {:induction false} Conserved(ops: seq<Op>)
    ensures var h := Run(EMPTY, ops);
      && multiset(h.created) == multiset(h.deleted) + Held(h.created, h.counters.Keys)
      && (h.pointers == map[] ==> multiset(h.deleted) == multiset(h.created))
  {
    if ops != [] {
      var before := Run(EMPTY, ops[..|ops| - 1]);
      Conserved(ops[..|ops| - 1]);
      RunInv(ops[..|ops| - 1]);
      StepBalanced(before, ops[|ops| - 1]);
    }
    RunInv(ops);
    var h := Run(EMPTY, ops);
    if h.pointers == map[] {
      forall a | 0 <= a < |h.created|
        ensures a !in h.counters
      {
        AllocatedIffOwned(h, a);
      }
      HeldSame(h.created, h.counters.Keys, {});
      HeldNothing(h.created);
    }
  }

  ghost predicate NoCreate(ops: seq<Op>) {
    forall i :: 0 <= i < |ops| ==> !ops[i].Create?
  }

  lemma {:induction false} CreatedKept(ops: seq<Op>, more: seq<Op>)
    requires NoCreate(more)
    ensures Run(EMPTY, ops + more).created == Run(EMPTY, ops).created
  {
    if more == [] {
      assert ops + more == ops;
    } else {
      var n := |more| - 1;
      CreatedKept(ops, more[..n]);
      assert (ops + more)[..|ops + more| - 1] == ops + more[..n];
    }
  }

  /** Destroying what is left, one by one. */
  lemma {:induction false} DestroyAll(ops: seq<Op>) returns (more: seq<Op>)
    ensures NoCreate(more) && Run(EMPTY, ops + more).pointers == map[]
    decreases |Run(EMPTY, ops).pointers|
  {
    var h := Run(EMPTY, ops);
    if h.pointers == map[] {
      more := [];
      assert ops + more == ops;
    } else {
      assert h.pointers.Keys != {};
      var sp :| sp in h.pointers.Keys;
      var next := ops + [Destroy(sp)];
      assert next[..|next| - 1] == ops;
      var rest := DestroyAll(next);
      more := [Destroy(sp)] + rest;
      assert ops + more == next + rest;
    }
  }

  /** No object occurs twice; null may. */
  ghost predicate Unrepeated(s: seq<nat>) {
    forall i, j :: 0 <= i < j < |s| && s[i] == s[j] ==> s[i] == NULL
  }

  /** An object is deleted with its counter, so wrapping each object once is enough. */
  lemma DeletedOnce(h: Heap)
    requires Logged(h) && Unrepeated(h.created)
    ensures Unrepeated(h.deleted)
  {
    forall i, j | 0 <= i < j < |h.deleted| && h.deleted[i] == h.deleted[j]
      ensures h.deleted[i] == NULL
    {
      var a, b := h.freed[i], h.freed[j];
      assert a != b && h.deleted[i] == h.created[a] && h.deleted[j] == h.created[b];
      assert a < b || b < a;
    }
  }

  /** However the program goes on without handing over more raw pointers, no object is deleted twice. */
  ghost predicate NeverTwice(ops: seq<Op>) {
    forall more: seq<Op> :: NoCreate(more) ==> Unrepeated(Run(EMPTY, ops + more).deleted)
  }

  /** The caller's duty, exactly: from any point of any run on, no object is ever deleted twice if and only if
      no object was handed over twice as a raw pointer. */
  lemma DeletedOnceIff(ops: seq<Op>)
    ensures NeverTwice(ops) <==> Unrepeated(Run(EMPTY, ops).created)
  {
    if Unrepeated(Run(EMPTY, ops).created) {
      forall more: seq<Op> | NoCreate(more)
        ensures Unrepeated(Run(EMPTY, ops + more).deleted)
      {
        CreatedKept(ops, more);
        RunInv(ops + more);
        DeletedOnce(Run(EMPTY, ops + more));
      }
    }
    if NeverTwice(ops) {
      var more := DestroyAll(ops);
      CreatedKept(ops, more);
      Conserved(ops + more);
      SameRepeats(Run(EMPTY, ops + more).deleted, Run(EMPTY, ops).created);
    }
  }

  /** A run that deletes an object twice. */
  lemma DeletedTwice(obj: nat) returns (ops: seq<Op>)
    ensures Run(EMPTY, ops).deleted == [obj, obj]
  {
    var ops1 := [Create(0, obj)];
    var ops2 := ops1 + [Create(1, obj)];
    var ops3 := ops2 + [Destroy(0)];
    ops := ops3 + [Destroy(1)];
    assert ops1[..0] == [] && ops2[..1] == ops1 && ops3[..2] == ops2 && ops[..3] == ops3;
    assert Run(EMPTY, ops1) == Step(EMPTY, Create(0, obj));
    assert Run(EMPTY, ops2).pointers == map[0 := 0, 1 := 1];
    assert Run(EMPTY, ops2).counters == map[0 := Counter(obj, 1), 1 := Counter(obj, 1)];
    assert Run(EMPTY, ops3).pointers == map[1 := 1] && Run(EMPTY, ops3).counters == map[1 := Counter(obj, 1)];
  }

  ghost predicate NoRepeats(s: seq<nat>) {
    forall i, j :: 0 <= i < j < |s| ==> s[i] != s[j]
  }

  lemma SameRepeats(s: seq<nat>, t: seq<nat>)
    requires multiset(s) == multiset(t) && Unrepeated(s)
    ensures Unrepeated(t)
  {
    forall i, j | 0 <= i < j < |t| && t[i] == t[j]
      ensures t[i] == NULL
    {
      CountTwice(t, i, j);
      CountObject(s, t[i]);
    }
  }

  lemma {:induction false} CountObject(s: seq<nat>, x: nat)
    requires Unrepeated(s)
    ensures x != NULL ==> multiset(s)[x] <= 1
  {
    if s != [] {
      CountObject(s[1..], x);
      assert s == [s[0]] + s[1..];
      assert s[0] == x && x != NULL ==> x !in s[1..];
    }
  }

  lemma CountTwice(t: seq<nat>, i: nat, j: nat)
    requires i < j < |t|
    ensures t[i] == t[j] ==> multiset(t)[t[j]] >= 2
  {
    assert t == t[..j] + ([t[j]] + t[j + 1..]);
    assert t[..j][i] == t[i];
  }

  lemma {:induction false} HeldNothing(created: seq<nat>)
    ensures Held(created, {}) == multiset{}
  {
    if created != [] {
      HeldNothing(created[..|created| - 1]);
    }
  }

  // ---------------------------------------------------------------- the class

  /** The memory that the operations of SmartPointer and Counter update. */
  class Memory {
    var pointers: map<nat, nat>
    var counters: map<nat, Counter>
    var created: seq<nat>
    var freed: seq<nat>
    var deleted: seq<nat>

    function View(): Heap
      reads this
    {
      Heap(pointers, counters, created, freed, deleted, false)
    }

    constructor ()
      ensures View() == EMPTY
    {
      pointers, counters, created, freed, deleted := map[], map[], [], [], [];
    }

    /** ++ptr_counter->cnt */
    method Acquire(a: nat)
      requires a in counters
      modifies this
      ensures View() == Take(old(View()), a)
    {
      counters := counters[a := counters[a].(cnt := counters[a].cnt + 1)];
    }

    /** --ptr_counter->cnt, then delete ptr_counter if it is zero; the destructor of Counter deletes the
        object. */
    method Release(a: nat)
      requires a in counters
      modifies this
      ensures View() == Drop(old(View()), a)
    {
      counters := counters[a := counters[a].(cnt := counters[a].cnt - 1)];
      if counters[a].cnt == 0 {
        deleted := deleted + [counters[a].ptr];
        counters := counters - {a};
        freed := freed + [a];
        assert counters == old(counters) - {a};
      }
    }

    /** SmartPointer(Object2*) */
    method Create(sp: nat, obj: nat)
      requires Inv(View()) && Legal(View(), Op.Create(sp, obj))
      modifies this
      ensures Inv(View()) && View() == Step(old(View()), Op.Create(sp, obj))
    {
      ghost var h := View();
      var a := |created|;
      created := created + [obj];
      counters := counters[a := Counter(obj, 1)];
      pointers := pointers[sp := a];
      StepInv(h, Op.Create(sp, obj));
    }

    /** SmartPointer(const SmartPointer&) */
    method Copy(sp: nat, from: nat)
      requires Inv(View()) && Legal(View(), Op.Copy(sp, from))
      modifies this
      ensures Inv(View()) && View() == Step(old(View()), Op.Copy(sp, from))
    {
      ghost var h := View();
      pointers := pointers[sp := pointers[from]];
      Acquire(pointers[sp]);
      assert View() == Bind(Take(h, h.pointers[from]), sp, h.pointers[from]);
      StepInv(h, Op.Copy(sp, from));
    }

    /** operator=, the two sides possibly the same */
    method Assign(sp: nat, from: nat)
      requires Inv(View()) && Legal(View(), Op.Assign(sp, from))
      modifies this
      ensures Inv(View()) && View() == Step(old(View()), Op.Assign(sp, from))
    {
      ghost var h := View();
      Acquire(pointers[from]);
      Release(pointers[sp]);
      pointers := pointers[sp := pointers[from]];
      StepInv(h, Op.Assign(sp, from));
    }

    /** ~SmartPointer */
    method Destroy(sp: nat)
      requires Inv(View()) && Legal(View(), Op.Destroy(sp))
      modifies this
      ensures Inv(View()) && View() == Step(old(View()), Op.Destroy(sp))
    {
      ghost var h := View();
      Release(pointers[sp]);
      pointers := pointers - {sp};
      StepInv(h, Op.Destroy(sp));
    }
  }
}

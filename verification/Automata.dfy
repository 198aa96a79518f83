/**
 Alternating automata: the recursive definition of acceptance, the runs (trees) that
 define it independently, and the proof that the two agree.
 */
module Automata {
  import opened Prelude

  /** `delta[(q, a)]` lists the stored successors of `q` on letter `a`, in file order and
      possibly with repetitions; a pair that is not a key has none. States below
      `universal` are universal, the others existential. */
  datatype Automaton = Automaton(
    initial: int,
    universal: int,
    final: set<int>,
    delta: map<(int, int), seq<int>>)
  {
    predicate Existential(q: int) {
      q >= universal
    }

    function Successors(q: int, c: char): seq<int> {
      if (q, Letter(c)) in delta then delta[(q, Letter(c))] else []
    }

    /** T(q, c), a set. */
    function Targets(q: int, c: char): set<int> {
      Elements(Successors(q, c))
    }
  }

  function Letter(c: char): int {
    c as int - 'a' as int
  }

  /** Acceptance from state `q` at position `d`, as the documentation's recursive function. */
  ghost predicate Accepts(m: Automaton, w: string, q: int, d: nat)
    decreases |w| - d
  {
    if d >= |w| then q in m.final
    else if m.Existential(q) then exists p :: p in m.Targets(q, w[d]) && Accepts(m, w, p, d + 1)
    else forall p :: p in m.Targets(q, w[d]) ==> Accepts(m, w, p, d + 1)
  }

  ghost predicate AcceptsWord(m: Automaton, w: string) {
    Accepts(m, w, m.initial, 0)
  }

  /** Acceptance in terms of the stored successors, by index. */
  lemma AcceptsByIndex(m: Automaton, w: string, q: int, d: nat)
    requires d < |w|
    ensures
      var row := m.Successors(q, w[d]);
      Accepts(m, w, q, d) <==>
        if m.Existential(q) then exists j :: 0 <= j < |row| && Accepts(m, w, row[j], d + 1)
        else forall j :: 0 <= j < |row| ==> Accepts(m, w, row[j], d + 1)
  {
    var row, targets := m.Successors(q, w[d]), m.Targets(q, w[d]);
    assert forall j :: 0 <= j < |row| ==> row[j] in targets;
  }

  /** A run of an automaton: a finite tree labelled with states. */
  datatype Run = Node(state: int, children: seq<Run>)

  /** `t`, rooted at depth `i`, obeys the three rules of a run on `w`. */
  ghost predicate IsRun(m: Automaton, w: string, i: nat, t: Run)
    requires i <= |w|
    decreases |w| - i
  {
    if i == |w| then t.children == []
    else
      var targets := m.Targets(t.state, w[i]);
      && (targets == {} ==> t.children == [])
      && (targets != {} && m.Existential(t.state) ==>
            |t.children| == 1 && t.children[0].state in targets)
      && (targets != {} && !m.Existential(t.state) ==> ExactlyOneEach(t.children, targets))
      && forall c :: c in t.children ==> IsRun(m, w, i + 1, c)
  }

  /** The children carry every state of `targets`, each exactly once, and nothing else. */
  ghost predicate ExactlyOneEach(children: seq<Run>, targets: set<int>) {
    && (forall j, k :: 0 <= j < k < |children| ==> children[j].state != children[k].state)
    && (forall c :: c in children ==> c.state in targets)
    && (forall p :: p in targets ==> exists c :: c in children && c.state == p)
  }

  /** Leaves at full depth are final; every other leaf is universal. */
  ghost predicate AcceptingLeaves(m: Automaton, w: string, i: nat, t: Run)
    decreases t
  {
    if t.children == [] then
      if i == |w| then t.state in m.final else !m.Existential(t.state)
    else
      forall c :: c in t.children ==> AcceptingLeaves(m, w, i + 1, c)
  }

  ghost predicate AcceptingRunFrom(m: Automaton, w: string, q: int, i: nat, t: Run)
    requires i <= |w|
  {
    t.state == q && IsRun(m, w, i, t) && AcceptingLeaves(m, w, i, t)
  }

  ghost predicate AcceptingRun(m: Automaton, w: string, t: Run) {
    AcceptingRunFrom(m, w, m.initial, 0, t)
  }

  // ----- acceptance and accepting runs agree

  lemma {:induction false} RunAccepts(m: Automaton, w: string, q: int, i: nat, t: Run)
    requires i <= |w| && AcceptingRunFrom(m, w, q, i, t)
    ensures Accepts(m, w, q, i)
    decreases |w| - i
  {
    if i == |w| {
    } else {
      forall c | c in t.children
        ensures Accepts(m, w, c.state, i + 1)
      {
        RunAccepts(m, w, c.state, i + 1, c);
      }
      if m.Existential(q) {
        assert t.children[0] in t.children;
      }
    }
  }

  lemma {:induction false} AcceptsHasRun(m: Automaton, w: string, q: int, i: nat) returns (t: Run)
    requires i <= |w| && Accepts(m, w, q, i)
    ensures AcceptingRunFrom(m, w, q, i, t)
    decreases |w| - i, 1, 0
  {
    if i == |w| {
      t := Node(q, []);
    } else if m.Existential(q) {
      var p :| p in m.Targets(q, w[i]) && Accepts(m, w, p, i + 1);
      var c := AcceptsHasRun(m, w, p, i + 1);
      t := Node(q, [c]);
    } else {
      var children := AllHaveRuns(m, w, m.Targets(q, w[i]), i + 1);
      assert children != [] ==> children[0] in children;
      t := Node(q, children);
    }
  }

  lemma {:induction false} AllHaveRuns(m: Automaton, w: string, targets: set<int>, i: nat)
    returns (children: seq<Run>)
    requires i <= |w|
    requires forall p :: p in targets ==> Accepts(m, w, p, i)
    ensures ExactlyOneEach(children, targets)
    ensures forall c :: c in children ==> AcceptingRunFrom(m, w, c.state, i, c)
    decreases |w| - i, 2, |targets|
  {
    if p :| p in targets {
      var others := AllHaveRuns(m, w, targets - {p}, i);
      var c := AcceptsHasRun(m, w, p, i);
      children := [c] + others;
      forall r | r in targets
        ensures exists d :: d in children && d.state == r
      {
        if r == p {
          assert children[0] in children;
        } else {
          assert r in targets - {p};
          var d :| d in others && d.state == r;
          assert d in children;
        }
      }
    } else {
      children := [];
    }
  }

  /** The recursive definition accepts exactly when an accepting run exists. */
  lemma AcceptsIffRun(m: Automaton, w: string)
    ensures AcceptsWord(m, w) <==> exists t :: AcceptingRun(m, w, t)
  {
    if AcceptsWord(m, w) {
      var t := AcceptsHasRun(m, w, m.initial, 0);
      assert AcceptingRun(m, w, t);
    }
    if t :| AcceptingRun(m, w, t) {
      RunAccepts(m, w, m.initial, 0, t);
    }
  }

  /** Two automata with the same initial state, universal and final states and the same
      successor sets; nothing is said about the order or repetition of stored successors. */
  ghost predicate SameSets(m: Automaton, n: Automaton) {
    && m.initial == n.initial && m.universal == n.universal && m.final == n.final
    && forall q, c :: m.Targets(q, c) == n.Targets(q, c)
  }

  lemma {:induction false} OrderIrrelevant(m: Automaton, n: Automaton, w: string, q: int, d: nat)
    requires SameSets(m, n)
    ensures Accepts(m, w, q, d) == Accepts(n, w, q, d)
    decreases |w| - d
  {
    if d >= |w| {
    } else {
      assert m.Targets(q, w[d]) == n.Targets(q, w[d]);
      forall p | p in m.Targets(q, w[d])
        ensures Accepts(m, w, p, d + 1) == Accepts(n, w, p, d + 1)
      {
        OrderIrrelevant(m, n, w, p, d + 1);
      }
    }
  }
}

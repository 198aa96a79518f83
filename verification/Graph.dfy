/** The transition graph in its fixed-size tables, and the sequential evaluator over it. */
module Graph {
  import opened Prelude
  import opened Automata

  const MAX_Q: nat := 107
  const MAX_A: nat := 37

  predicate IsState(q: int) {
    0 <= q < MAX_Q
  }

  predicate IsWord(w: string) {
    forall i :: 0 <= i < |w| ==> 0 <= Letter(w[i]) < MAX_A
  }

  class TransitionGraph {
    const graph: array3<int>            // graph[q, a, i]: the i-th stored successor of q on a
    const size: array2<int>             // how many of them are in use
    const acceptingStates: array<int>
    var q0: int
    var A: int
    var Q: int
    var U: int
    var F: int

    /** The tables have their declared dimensions. */
    predicate Shaped() {
      && graph.Length0 == MAX_Q && graph.Length1 == MAX_A && graph.Length2 == MAX_Q
      && size.Length0 == MAX_Q && size.Length1 == MAX_A
      && acceptingStates.Length == MAX_Q
    }

    /** Every index stored in the tables is one. */
    ghost predicate Valid()
      reads this, graph, size, acceptingStates
    {
      && Shaped()
      && IsState(q0)
      && (forall q :: 0 <= q < MAX_Q ==> acceptingStates[q] == 0 || acceptingStates[q] == 1)
      && (forall q, a :: 0 <= q < MAX_Q && 0 <= a < MAX_A ==> 0 <= size[q, a] <= MAX_Q)
      && (forall q, a, i :: 0 <= q < MAX_Q && 0 <= a < MAX_A && 0 <= i < size[q, a] ==> IsState(graph[q, a, i]))
    }

    /** The first `n` stored successors of `q` on `a`. */
    ghost function Row(q: nat, a: nat, n: nat): (row: seq<int>)
      requires Shaped() && q < MAX_Q && a < MAX_A && n <= MAX_Q
      reads graph
      ensures |row| == n && forall i :: 0 <= i < n ==> row[i] == graph[q, a, i]
    {
      if n == 0 then [] else Row(q, a, n - 1) + [graph[q, a, n - 1]]
    }

    /** The automaton the tables stand for. */
    ghost function View(): Automaton
      requires Shaped()
      requires forall q, a :: 0 <= q < MAX_Q && 0 <= a < MAX_A ==> 0 <= size[q, a] <= MAX_Q
      reads this, graph, size, acceptingStates
    {
      Automaton(
        q0, U,
        set q | 0 <= q < MAX_Q && acceptingStates[q] != 0,
        map q, a | 0 <= q < MAX_Q && 0 <= a < MAX_A :: (q, a) := Row(q, a, size[q, a]))
    }

    /** Allocates and initializes. */
    constructor ()
      ensures Valid() && fresh(graph) && fresh(size) && fresh(acceptingStates)
      ensures IsEmpty()
    {
      graph := new int[MAX_Q, MAX_A, MAX_Q];
      size := new int[MAX_Q, MAX_A];
      acceptingStates := new int[MAX_Q];
      q0, A, Q, U, F := 0, 0, 0, 0, 0;
      new;
      Init();
    }

    ghost predicate IsEmpty()
      requires Shaped()
      reads this, graph, size, acceptingStates
    {
      && q0 == A == Q == U == F == 0
      && (forall q :: 0 <= q < MAX_Q ==> acceptingStates[q] == 0)
      && (forall q, a :: 0 <= q < MAX_Q && 0 <= a < MAX_A ==> size[q, a] == 0)
    }

    method Init()
      requires Shaped()
      modifies this, graph, size, acceptingStates
      ensures Valid() && IsEmpty()
      ensures forall q, a, p :: 0 <= q < MAX_Q && 0 <= a < MAX_A && 0 <= p < MAX_Q ==> graph[q, a, p] == -1
    {
      q0 := 0;
      A := 0;
      Q := 0;
      U := 0;
      F := 0;
      for q := 0 to MAX_Q
        modifies graph, size, acceptingStates
        invariant forall r :: 0 <= r < q ==> acceptingStates[r] == 0
        invariant forall r, b :: 0 <= r < q && 0 <= b < MAX_A ==> size[r, b] == 0
        invariant forall r, b, p :: 0 <= r < q && 0 <= b < MAX_A && 0 <= p < MAX_Q ==> graph[r, b, p] == -1
      {
        acceptingStates[q] := 0;
        for a := 0 to MAX_A
          modifies graph, size
          invariant forall r, b :: 0 <= r <= q && 0 <= b < (if r < q then MAX_A else a) ==> size[r, b] == 0
          invariant forall r, b, p :: 0 <= r <= q && 0 <= b < (if r < q then MAX_A else a) && 0 <= p < MAX_Q ==>
                                        graph[r, b, p] == -1
        {
          size[q, a] := 0;
          for p := 0 to MAX_Q
            modifies graph
            invariant forall r, b, o ::
                0 <= r <= q && 0 <= b < (if r < q then MAX_A else a) && 0 <= o < MAX_Q ==> graph[r, b, o] == -1
            invariant forall o :: 0 <= o < p ==> graph[q, a, o] == -1
          {
            graph[q, a, p] := -1;
          }
        }
      }
    }

    lemma ViewSuccessors(q: int, c: char)
      requires Valid() && IsState(q) && 0 <= Letter(c) < MAX_A
      ensures View().Successors(q, c) == Row(q, Letter(c), size[q, Letter(c)])
    {
    }

    method AcceptSyncRec(word: string, currentState: int, depth: nat, ghost m: Automaton) returns (r: int)
      requires Valid() && IsWord(word) && IsState(currentState) && m == View()
      ensures r == if Accepts(m, word, currentState, depth) then 1 else 0
      decreases |word| - depth, 1
    {
      if depth >= |word| {
        return acceptingStates[currentState];
      }
      AcceptsByIndex(m, word, currentState, depth);
      if currentState >= U {
        r := SomeBranch(word, currentState, depth, m);
      } else {
        r := EveryBranch(word, currentState, depth, m);
      }
    }

    /** The loop of an existential state: the first accepting successor ends it. */
    method SomeBranch(word: string, currentState: int, depth: nat, ghost m: Automaton) returns (r: int)
      requires Valid() && IsWord(word) && IsState(currentState) && m == View() && depth < |word|
      ensures r == 0 || r == 1
      ensures
        var row := m.Successors(currentState, word[depth]);
        r == 1 <==> exists j :: 0 <= j < |row| && Accepts(m, word, row[j], depth + 1)
      decreases |word| - depth, 0
    {
      var currentLetter := Letter(word[depth]);
      var branchCount := size[currentState, currentLetter];
      ghost var row := m.Successors(currentState, word[depth]);
      ViewSuccessors(currentState, word[depth]);
      for i := 0 to branchCount
        invariant forall j :: 0 <= j < i ==> !Accepts(m, word, row[j], depth + 1)
      {
        var b := AcceptSyncRec(word, graph[currentState, currentLetter, i], depth + 1, m);
        if b != 0 {
          assert Accepts(m, word, row[i], depth + 1);
          return 1;
        }
      }
      return 0;
    }

    /** The loop of a universal state: the first rejecting successor ends it. */
    method EveryBranch(word: string, currentState: int, depth: nat, ghost m: Automaton) returns (r: int)
      requires Valid() && IsWord(word) && IsState(currentState) && m == View() && depth < |word|
      ensures r == 0 || r == 1
      ensures
        var row := m.Successors(currentState, word[depth]);
        r == 1 <==> forall j :: 0 <= j < |row| ==> Accepts(m, word, row[j], depth + 1)
      decreases |word| - depth, 0
    {
      var currentLetter := Letter(word[depth]);
      var branchCount := size[currentState, currentLetter];
      ghost var row := m.Successors(currentState, word[depth]);
      ViewSuccessors(currentState, word[depth]);
      for i := 0 to branchCount
        invariant forall j :: 0 <= j < i ==> Accepts(m, word, row[j], depth + 1)
      {
        var b := AcceptSyncRec(word, graph[currentState, currentLetter, i], depth + 1, m);
        if b == 0 {
          assert !Accepts(m, word, row[i], depth + 1);
          return 0;
        }
      }
      return 1;
    }

    /** The sequential evaluator accepts exactly the words that have an accepting run. */
    method AcceptSync(word: string) returns (r: int)
      requires Valid() && IsWord(word)
      ensures r == 1 <==> exists t :: AcceptingRun(View(), word, t)
      ensures r == 0 <==> !exists t :: AcceptingRun(View(), word, t)
    {
      r := AcceptSyncRec(word, q0, 0, View());
      AcceptsIffRun(View(), word);
    }
  }
}

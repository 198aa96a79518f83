/** A worker: it loads the automaton and evaluates one word, by either evaluator. */
module RunWorker {
  import opened Prelude
  import opened Automata
  import opened Graph
  import opened Loader
  import FJ = ForkJoin
  import ForkJoinTheorems
  import ForkJoinTermination

  /** The limits the workers are built with, and whether their collection loop is guarded. */
  datatype Limits = Limits(workload: int, forks: nat, guarded: bool)
  {
    function On(m: Automaton, word: string): FJ.Params {
      FJ.Params(m, word, workload, forks, guarded)
    }
  }

  /** A failed fork does no harm: there is none, or reads are guarded, or nothing is forked. */
  predicate Dependable(limits: Limits, schedule: seq<FJ.Event>) {
    limits.guarded || limits.workload > 2 || forall e :: e in schedule && e.Fork? ==> e.success
  }

  ghost predicate AnswersBy(m: Automaton, limits: Limits, word: string, schedule: seq<FJ.Event>, t: FJ.State, v: bool) {
    && FJ.Runs(limits.On(m, word), FJ.Init(limits.On(m, word)), schedule, t)
    && Dependable(limits, schedule)
    && t.procs != [] && t.procs[0].control == FJ.Answered(v)
  }

  /** The fork-join evaluator answers `v` on some schedule of its processes. */
  ghost predicate Answers(m: Automaton, limits: Limits, word: string, v: bool) {
    exists schedule, t :: AnswersBy(m, limits, word, schedule, t, v)
  }

  /** The answers of the fork-join evaluator are acceptance: it has one, and no other. */
  lemma AnswersIff(m: Automaton, limits: Limits, word: string, v: bool)
    ensures Answers(m, limits, word, v) <==> v == AcceptsWord(m, word)
  {
    hide FJ.Runs, AcceptsWord;
    var P := limits.On(m, word);
    if schedule, t :| AnswersBy(m, limits, word, schedule, t, v) {
      if limits.guarded || forall e: FJ.Event :: e in schedule && e.Fork? ==> e.success {
        ForkJoinTheorems.ForkJoinRefines(P, schedule, t);
      } else {
        ForkJoinTheorems.SequentialAnswer(P, schedule, t);
      }
    }
    var schedule, t := ForkJoinTermination.AnswerExists(P);
    assert AnswersBy(m, limits, word, schedule, t, AcceptsWord(m, word));
  }

  /** Loading a description and evaluating a word gives 1 exactly when the word has an accepting
      run of the automaton that was loaded, which is the described one exactly when no targets were
      missed, and else 0; and so does any fork-join evaluation. */
  method Work(text: string, ghost d: Description, word: string) returns (result: int)
    requires DescriptionOk(d) && text == Show(d) && IsWord(word)
    ensures result == 0 || result == 1
    ensures result == 1 <==> exists t :: AcceptingRun(Meaning(Read(d)), word, t)
    ensures NothingMissed(d.transitions) ==> (result == 1 <==> exists t :: AcceptingRun(Meaning(d), word, t))
    ensures forall limits, v :: Answers(Meaning(Read(d)), limits, word, v) ==> result == if v then 1 else 0
  {
    hide Answers, NothingMissed, Read, Meaning, Show, DescriptionOk, AcceptsWord, AcceptingRun, TransitionGraph.View,
      TransitionGraph.IsEmpty, IsWord;
    var g := new TransitionGraph();
    g.Init();
    LoadTransitionGraph(text, g, d);
    result := g.AcceptSync(word);
    AllAgree(g.View(), word);
  }

  /** Run trees and the fork-join evaluations, within any limits, agree. */
  lemma AllAgree(m: Automaton, word: string)
    ensures AcceptsWord(m, word) <==> exists t :: AcceptingRun(m, word, t)
    ensures forall limits, v :: Answers(m, limits, word, v) ==> v == AcceptsWord(m, word)
  {
    hide Answers, AcceptsWord;
    AcceptsIffRun(m, word);
    forall limits, v | Answers(m, limits, word, v)
      ensures v == AcceptsWord(m, word)
    {
      AnswersIff(m, limits, word, v);
    }
  }
}

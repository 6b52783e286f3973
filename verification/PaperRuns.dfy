/** Everything the paper book keeps, on every book that a run can reach. */
module PaperRuns {
  import opened PaperModels
  import opened PaperBook
  import opened PaperLaws
  import opened PaperFills
  import opened PaperGuards
  import opened PaperJournals

  ghost predicate AllLabelled(ops: seq<Operation>) { forall op | op in ops :: WellLabelled(op) }

  /** From a new account, whatever the operations, their order, their prices and their failures. */
  lemma ReachableBook(config: Config, initial: real, dailyLossLimit: real, ops: seq<Operation>)
    requires initial > 0.0
    ensures var book := Run(config, NewBook(initial, dailyLossLimit), ops);
      && Sound(config, book) && Conserved(book, initial) && Peaked(book.account) && Logged(book)
      && (AllLabelled(ops) ==> Accounted(book))
  {
    var empty := NewBook(initial, dailyLossLimit);
    NewBookSound(config, initial, dailyLossLimit);
    NewBookAccounted(initial, dailyLossLimit);
    RunSound(config, empty, ops, SetState(STOPPED));
    RunConserved(config, empty, ops, initial);
    RunPeaked(config, empty, ops);
    RunLogged(config, empty, ops);
    if AllLabelled(ops) { RunAccounted(config, empty, ops); }
  }

  /** On every reachable book no operation meets an invalid transition. */
  lemma ReachableStep(config: Config, initial: real, dailyLossLimit: real, ops: seq<Operation>, next: Operation)
    ensures Apply(config, Run(config, NewBook(initial, dailyLossLimit), ops), next).1
         != Raised(InvalidPositionTransition)
  {
    NewBookSound(config, initial, dailyLossLimit);
    RunSound(config, NewBook(initial, dailyLossLimit), ops, next);
  }
}

/** Keeps the body of a definition out of sight of proofs that do not need it: `forall u :: Folded(mark, u)
    ==> Body` is used only where `Folded(mark, 0)` is asserted. Each such definition has a mark of its own,
    since proving one of them makes its guard available. */
module Folding {
  datatype Mark =
    | LeadsMark | ProgressMark | RestorableMark | UndoingMark | ShapelyMark | HeldMark | UndoableMark
    | RecordMark | StateMark | UndoMark | FiledMark | CoverMark | AgeMark
    | CoreMark | CommitMark | NodeMark | LaneMark | ReadyMark | TookMark | SampleMark | CleanMark
    | WaitMark | CaptureMark | ReplaceMark | TakesMark | SendMark | StreamMark | MeantMark | RunMark | GreetingMark
    | ProbingMark | AskedMark | ReportedMark | StepMark | HearMark | TimedMark

  ghost predicate Folded(mark: Mark, u: int) { u == u }
}

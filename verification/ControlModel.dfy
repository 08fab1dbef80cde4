/** Desired state: what operators publish and workers apply. */
module ControlModel {
  import opened Prelude
  import opened CheckpointChain

  datatype Action = Run | Pause | Stop | Abort

  /** Desired state of one run; only `Run` may name a checkpoint to resume from. */
  datatype Control = Control(run: string, generation: nat, action: Action, resumeFrom: Option<Ref>)

  predicate ControlOk(c: Control) {
    c.generation >= 1 && (!c.action.Run? ==> c.resumeFrom.None?)
  }
}

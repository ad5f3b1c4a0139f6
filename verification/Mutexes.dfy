/** Threads that meet at one mutex: how a thread's program counter and the mutex move. */
module Mutexes {
  import opened Common

  datatype Sync<PC> = Sync(mutex: Lock, threads: seq<PC>)

  function Goto<PC>(s: Sync<PC>, a: nat, pc: PC): Sync<PC>
    requires a < |s.threads|
  {
    s.(threads := s.threads[a := pc])
  }

  /** Wait, or go on to pc with the mutex. */
  function Acquire<PC>(s: Sync<PC>, a: nat, pc: PC): Sync<PC>
    requires a < |s.threads|
  {
    if s.mutex.Held? then s else Goto(s, a, pc).(mutex := Held(a))
  }

  function Leave<PC>(s: Sync<PC>, a: nat, pc: PC): Sync<PC>
    requires a < |s.threads|
  {
    Goto(s, a, pc).(mutex := Open)
  }
}

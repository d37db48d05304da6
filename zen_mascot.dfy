/**
 * The mascot's rotating message (src/components/ZenMascot.tsx): an index
 * into a constant list of five messages, advanced modulo the list's
 * length by an eight-second interval.
 */
module ZenMascot {
  const Messages: seq<string> := [
    "Olá! Sou o Zen, seu companheiro de jejum! 🧘‍♂️",
    "Respire fundo e confie no processo! 💙",
    "Cada hora é uma vitória! Continue firme! 🌟",
    "Lembre-se: você é mais forte do que imagina! 💪",
    "A jornada de mil quilômetros começa com um passo! 🚀"
  ]

  /** The interval's update `(prev + 1) % messages.length`. */
  function Next(i: nat): (j: nat)
    ensures j < |Messages|
    ensures i + 1 < |Messages| ==> j == i + 1
    ensures i + 1 == |Messages| ==> j == 0
  {
    (i + 1) % |Messages|
  }

  /** The index after `k` updates. */
  function Steps(i: nat, k: nat): nat {
    if k == 0 then i else Next(Steps(i, k - 1))
  }

  lemma {:induction false} StepsAdd(i: nat, k: nat)
    requires i < |Messages|
    ensures Steps(i, k) == (i + k) % |Messages|
  {
    if k > 0 {
      StepsAdd(i, k - 1);
    }
  }

  /** Five updates bring the index back where it started. */
  lemma FiveStepsReturn(i: nat)
    requires i < |Messages|
    ensures Steps(i, |Messages|) == i
  {
    StepsAdd(i, |Messages|);
  }

  /** Within five updates every message is shown once. */
  lemma EveryMessageShown(i: nat, j: nat)
    requires i < |Messages| && j < |Messages|
    ensures Steps(i, (j - i + |Messages|) % |Messages|) == j
  {
    StepsAdd(i, (j - i + |Messages|) % |Messages|);
  }

  class Mascot {
    var currentMessage: nat

    ghost predicate Valid()
      reads this
    {
      currentMessage < |Messages|
    }

    constructor ()
      ensures Valid() && currentMessage == 0
    {
      currentMessage := 0;
    }

    /** The interval callback. */
    method Rotate()
      requires Valid()
      modifies this
      ensures Valid() && currentMessage == Next(old(currentMessage))
    {
      currentMessage := (currentMessage + 1) % |Messages|;
    }

    /** `messages[currentMessage]`, always in bounds. */
    function Shown(): (m: string)
      requires Valid()
      reads this
      ensures m in Messages
    {
      Messages[currentMessage]
    }
  }

  /** A client: five rotations show the same message again. */
  method RotateFiveTimes(m: Mascot)
    requires m.Valid()
    modifies m
    ensures m.Valid() && m.currentMessage == old(m.currentMessage)
  {
    m.Rotate();
    m.Rotate();
    m.Rotate();
    m.Rotate();
    m.Rotate();
    FiveStepsReturn(old(m.currentMessage));
  }
}

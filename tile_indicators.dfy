/**
 * The tile indicators plugin's Tekton attack timer: a countdown from 3
 * that falls by one each game tick, stops at 0, and restarts at 3 when
 * an actor whose name contains "tekton" plays one of Tekton's attack
 * animations.
 */
module TileIndicators {
  import opened Wrappers
  import opened JavaInt
  import opened JavaString

  /** `TektonAnimation.values()`: the animation ids of Tekton's attacks, in declaration order. */
  const TEKTON_ANIMATIONS: seq<int> := [7493, 7492, 7494, 7482, 7484, 7483]

  /** The actor of an animation event; the name is absent for unnamed actors. */
  datatype Actor = Actor(name: Option<string>, animation: int)

  /** `name.toLowerCase().contains("tekton")`. */
  predicate IsTektonName(name: string)
  {
    Contains(ToLower(name), "tekton")
  }

  /** The condition under which `onAnimation` restarts the timer. */
  predicate IsTektonAttack(actor: Option<Actor>)
  {
    actor.Some? && actor.value.name.Some? && IsTektonName(actor.value.name.value) &&
    actor.value.animation in TEKTON_ANIMATIONS
  }

  /** Names that differ only in the case of their letters are treated alike. */
  lemma TektonNameIgnoresCase(a: string, b: string)
    requires EqualsIgnoreCase(a, b)
    ensures IsTektonName(a) <==> IsTektonName(b)
  {
    assert ToLower(a) == ToLower(b);
  }

  /** The countdown after `n` ticks from `t`. */
  function TektonAfter(t: int, n: nat): int
  {
    if n == 0 then t else TektonAfter(if t > 0 then t - 1 else t, n - 1)
  }

  /** From a non-negative value the countdown loses one per tick and stops at 0. */
  lemma {:induction false} TektonAfterTicks(t: int, n: nat)
    requires t >= 0
    ensures TektonAfter(t, n) == if t >= n then t - n else 0
  {
    if n > 0 {
      TektonAfterTicks(if t > 0 then t - 1 else t, n - 1);
    }
  }

  /** Three ticks after a reset the timer is 0, and it stays 0. */
  lemma TektonExpires(n: nat)
    requires n >= 3
    ensures TektonAfter(3, n) == 0
  {
    TektonAfterTicks(3, n);
  }

  class TileIndicatorsPlugin {
    var ticks: Int32
    var tektonTicks: Int32

    /** The timer only takes the values 0..3. */
    predicate Valid()
      reads this
    {
      0 <= tektonTicks <= 3
    }

    constructor ()
      ensures Valid()
      ensures ticks == 0 && tektonTicks == 3
    {
      ticks := 0;
      tektonTicks := 3;
    }

    /** `onTick`: counts the tick and runs the timer down by one, never below 0. */
    method OnTick()
      requires Valid()
      modifies this
      ensures Valid()
      ensures ticks == Add(old(ticks), 1)
      ensures tektonTicks as int == TektonAfter(old(tektonTicks) as int, 1)
    {
      ticks := Add(ticks, 1);
      if tektonTicks > 0 {
        tektonTicks := tektonTicks - 1;
      }
    }

    /** `resetTektonAttackTimer`. */
    method ResetTektonAttackTimer()
      modifies this
      ensures Valid()
      ensures tektonTicks == 3 && ticks == old(ticks)
    {
      tektonTicks := 3;
    }

    /** `onAnimation`: restarts the timer exactly on a Tekton attack; anything else changes nothing. */
    method OnAnimation(actor: Option<Actor>)
      requires Valid()
      modifies this
      ensures Valid()
      ensures tektonTicks == if IsTektonAttack(actor) then 3 else old(tektonTicks)
      ensures ticks == old(ticks)
    {
      if actor.Some? {
        var a := actor.value;
        if a.name.Some? && Contains(ToLower(a.name.value), "tekton") {
          for i := 0 to |TEKTON_ANIMATIONS|
            invariant Valid() && ticks == old(ticks)
            invariant tektonTicks == if a.animation in TEKTON_ANIMATIONS[..i] then 3 else old(tektonTicks)
          {
            if a.animation == TEKTON_ANIMATIONS[i] {
              ResetTektonAttackTimer();
            }
            assert TEKTON_ANIMATIONS[..i + 1] == TEKTON_ANIMATIONS[..i] + [TEKTON_ANIMATIONS[i]];
          }
          assert TEKTON_ANIMATIONS[..|TEKTON_ANIMATIONS|] == TEKTON_ANIMATIONS;
        }
      }
    }
  }
}

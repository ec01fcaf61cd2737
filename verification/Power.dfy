/** Battery-aware backoff: a power reading to a level, and what each level stretches and skips. */
module Power {
  import opened Options

  datatype PowerState = PowerState(onBattery: bool, charge: Option<real>)

  datatype Level = Lively | Eased | Low {
    function Depth(): nat {
      match this
      case Lively => 0
      case Eased => 1
      case Low => 2
    }
  }

  datatype Policy = Policy(easedScale: real, lowScale: real, lowChargeThreshold: real) {
    /** What the constructor accepts. */
    predicate Valid() {
      easedScale >= 1.0 && lowScale >= 1.0 && lowScale >= easedScale && 0.0 < lowChargeThreshold <= 1.0
    }

    function LevelOf(power: PowerState): Level {
      if !power.onBattery then Lively
      else if power.charge.Some? && power.charge.value < lowChargeThreshold then Low
      else Eased
    }

    function CadenceScale(level: Level): real {
      match level
      case Lively => 1.0
      case Eased => easedScale
      case Low => lowScale
    }

    predicate Skips(level: Level, essential: bool) {
      match level
      case Lively => false
      case Low => true
      case Eased => !essential
    }
  }

  /** The first source is no better than the second: mains beats battery, more known charge beats less,
      and a battery of unknown charge is taken for a full one. */
  predicate NoRicher(p: PowerState, q: PowerState) {
    !q.onBattery || (p.onBattery && (q.charge.None? || (p.charge.Some? && p.charge.value <= q.charge.value)))
  }

  /** A poorer reading never has a shallower level, and a missing one never the deepest. */
  lemma LevelFollowsPower(policy: Policy, p: PowerState, q: PowerState)
    ensures p.charge.None? ==> policy.LevelOf(p) != Low
    ensures NoRicher(p, q) ==> policy.LevelOf(q).Depth() <= policy.LevelOf(p).Depth()
  {
  }
}

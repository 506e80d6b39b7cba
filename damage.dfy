/**
 * Equipment degradation as a ratio (damage.rs). The value 0 is undamaged, 1 is
 * offline. `damage_percentage`, read by the older battery and solar code, is
 * 100 times the value.
 */
module Damages {
  import opened Numeric

  datatype Damage = Damage(value: real) {

    /** The ratio lies in [0,1]: what `new` establishes and `damage`/`repair` keep. */
    predicate Valid() {
      0.0 <= value <= 1.0
    }

    /** `inner`: the ratio itself; it lies in [0,1] exactly when the damage is valid. */
    function Inner(): (r: real)
      ensures Valid() <==> 0.0 <= r <= 1.0
    {
      value
    }

    /** The older percentage view of the same ratio. */
    function Percentage(): (p: real)
      ensures Valid() ==> 0.0 <= p <= 100.0
      ensures p == 0.0 <==> IsUndamaged()
    {
      100.0 * value
    }

    /** `is_offline`: the ratio is exactly 1. */
    predicate IsOffline() {
      value == 1.0
    }

    /** `is_undamaged`: the ratio is exactly 0. */
    predicate IsUndamaged() {
      value == 0.0
    }

    /** Scales a quantity by the part of the equipment still working. */
    function Apply(x: real): (r: real)
      ensures Valid() && 0.0 <= x ==> 0.0 <= r <= x
      ensures IsUndamaged() ==> r == x
      ensures IsOffline() ==> r == 0.0
    {
      ScaledWithin(x, 1.0 - value);
      x * (1.0 - value)
    }

    /** Scales a quantity by the damaged part of the equipment. */
    function InverseApply(x: real): (r: real)
      ensures Valid() && 0.0 <= x ==> 0.0 <= r <= x
      ensures IsUndamaged() ==> r == 0.0
      ensures IsOffline() ==> r == x
    {
      ScaledWithin(x, value);
      x * value
    }

    /** The value after `damage(amount)`: saturates at 1, no lower clamp. */
    function AfterDamage(amount: real): (d: Damage)
      ensures d.value <= 1.0
      ensures value + amount <= 1.0 ==> d.value == value + amount
      ensures value + amount >= 1.0 ==> d.IsOffline()
      ensures Valid() && 0.0 <= amount ==> d.Valid() && value <= d.value
    {
      Damage(Min(value + amount, 1.0))
    }

    /** The value after `repair(amount)`: saturates at 0, no upper clamp. */
    function AfterRepair(amount: real): (d: Damage)
      ensures 0.0 <= d.value
      ensures value - amount >= 0.0 ==> d.value == value - amount
      ensures value - amount <= 0.0 ==> d.IsUndamaged()
      ensures Valid() && 0.0 <= amount ==> d.Valid() && d.value <= value
    {
      Damage(Max(value - amount, 0.0))
    }

    /** `damage(&mut self, amount)`: add, then clamp from above. */
    method AddDamage(amount: real) returns (d: Damage)
      ensures d == AfterDamage(amount)
    {
      var v := value;
      v := v + amount;
      if v > 1.0 {
        v := 1.0;
      }
      d := Damage(v);
    }

    /** `repair(&mut self, amount)`: subtract, then clamp from below. */
    method Repair(amount: real) returns (d: Damage)
      ensures d == AfterRepair(amount)
    {
      var v := value;
      v := v - amount;
      if v < 0.0 {
        v := 0.0;
      }
      d := Damage(v);
    }
  }

  /** A nonnegative quantity scaled by a fraction in [0,1] stays within [0, the quantity]. */
  lemma ScaledWithin(x: real, f: real)
    ensures 0.0 <= x && 0.0 <= f <= 1.0 ==> 0.0 <= x * f <= x
  {
    if 0.0 <= x && 0.0 <= f <= 1.0 {
      assert x - x * f == x * (1.0 - f);
    }
  }

  /** `Damage::new`: clamps its argument into [0,1]. */
  function New(v: real): (d: Damage)
    ensures d.Valid()
    ensures 0.0 <= v <= 1.0 ==> d.value == v
    ensures v < 0.0 ==> d.IsUndamaged()
    ensures v > 1.0 ==> d.IsOffline()
  {
    var clamped := if v < 0.0 then 0.0 else v;
    var clamped := if clamped > 1.0 then 1.0 else clamped;
    Damage(clamped)
  }

  /** `Damage::offline`. */
  function OfflineDamage(): (d: Damage)
    ensures d.Valid() && d.IsOffline() && !d.IsUndamaged()
  {
    Damage(1.0)
  }

  /** The derived `Default`: an undamaged ratio. */
  function Undamaged(): (d: Damage)
    ensures d.Valid() && d.IsUndamaged() && !d.IsOffline()
  {
    Damage(0.0)
  }

  /** `inner` and `new` are inverse on valid ratios. */
  lemma InnerNewRoundTrip(d: Damage, v: real)
    ensures d.Valid() ==> New(d.Inner()) == d
    ensures 0.0 <= v <= 1.0 ==> New(v).Inner() == v
  {
  }

  /**
   * `is_offline` and `is_undamaged` are the two ends of the valid range and never
   * hold together: offline keeps nothing and takes everything, undamaged the reverse.
   */
  lemma OfflineUndamagedEnds(d: Damage, x: real)
    ensures d.IsOffline() ==> d.Valid() && !d.IsUndamaged() && d.Apply(x) == 0.0 && d.InverseApply(x) == x
    ensures d.IsUndamaged() ==> d.Valid() && !d.IsOffline() && d.Apply(x) == x && d.InverseApply(x) == 0.0
  {
  }

  /** What `apply` keeps and `inverse_apply` takes away add up to the whole. */
  lemma ApplySplit(d: Damage, x: real)
    ensures d.Apply(x) + d.InverseApply(x) == x
  {
  }

  /** Repairing what was just inflicted undoes it when neither step saturates. */
  lemma DamageRepairRoundTrip(d: Damage, amount: real)
    requires d.Valid() && 0.0 <= amount && d.value + amount <= 1.0
    ensures d.AfterDamage(amount).AfterRepair(amount) == d
  {
  }
}

/**
  The IPv6 guard: two kernel keys written one after the other, of which only the
  first is ever read back.
 */
module Ipv6Guard {
  /** disable_ipv6 of "all" and of "default"; true means IPv6 is off. */
  datatype Keys = Keys(allOff: bool, defaultOff: bool)

  /** How the sysctl calls of one guard action turn out. */
  datatype Sysctl = Sysctl(readable: bool, allAccepts: bool, defaultAccepts: bool)

  predicate Works(s: Sysctl) {
    s.readable && s.allAccepts && s.defaultAccepts
  }

  /** The kernel's keys, as the guard sees and writes them. */
  class Kernel {
    var keys: Keys

    constructor (keys: Keys)
      ensures this.keys == keys
    {
      this.keys := keys;
    }

    /** is_disabled: a failed read counts as "not disabled". */
    function IsDisabled(s: Sysctl): bool
      reads this
    {
      s.readable && keys.allOff
    }

    /** One sysctl -w; a refused write changes nothing. */
    method Write(first: bool, value: bool, s: Sysctl) returns (ok: bool)
      modifies this
      ensures ok == if first then s.allAccepts else s.defaultAccepts
      ensures keys ==
        if !ok then old(keys)
        else if first then old(keys).(allOff := value)
        else old(keys).(defaultOff := value)
    {
      ok := if first then s.allAccepts else s.defaultAccepts;
      if ok && first {
        keys := keys.(allOff := value);
      } else if ok {
        keys := keys.(defaultOff := value);
      }
    }

    /** _set: both keys in turn, stopping at the first refusal. */
    method Set(value: bool, s: Sysctl) returns (ok: bool)
      modifies this
      ensures ok == (s.allAccepts && s.defaultAccepts)
      ensures keys == Written(old(keys), value, s)
    {
      var order := [true, false];
      for i := 0 to |order|
        invariant keys ==
          if i == 0 then old(keys) else if i == 1 then old(keys).(allOff := value) else Keys(value, value)
        invariant i >= 1 ==> s.allAccepts
        invariant i >= 2 ==> s.defaultAccepts
      {
        var accepted := Write(order[i], value, s);
        if !accepted { return false; }
      }
      return true;
    }

    /** disable */
    method Disable(s: Sysctl) returns (ok: bool)
      modifies this
      ensures (keys, ok) == Guarded(old(keys), true, s)
    {
      if IsDisabled(s) { return true; }
      ok := Set(true, s);
    }

    /** enable */
    method Enable(s: Sysctl) returns (ok: bool)
      modifies this
      ensures (keys, ok) == Guarded(old(keys), false, s)
    {
      if !IsDisabled(s) { return true; }
      ok := Set(false, s);
    }
  }

  function Written(k: Keys, value: bool, s: Sysctl): Keys {
    if !s.allAccepts then k
    else if !s.defaultAccepts then k.(allOff := value)
    else Keys(value, value)
  }

  /** The keys after a guard action that wants IPv6 off or on, and what it reports. */
  function Guarded(k: Keys, off: bool, s: Sysctl): (Keys, bool) {
    if (s.readable && k.allOff) == off then (k, true)
    else (Written(k, off, s), s.allAccepts && s.defaultAccepts)
  }

  /** Exactly when the key that counts ends up as wanted. */
  lemma AllKeyAsWantedIff(k: Keys, off: bool, s: Sysctl)
    ensures Guarded(k, off, s).0.allOff == off <==> k.allOff == off || ((off || s.readable) && s.allAccepts)
  {}

  /** A disable that reports success has IPv6 off, whatever the reads and writes did before. */
  lemma ReportedDisableIsOff(k: Keys, s: Sysctl)
    requires Guarded(k, true, s).1
    ensures Guarded(k, true, s).0.allOff
  {}

  /** Exactly when a reported success speaks for both keys. */
  lemma BothKeysAsWantedIff(k: Keys, off: bool, s: Sysctl)
    requires Guarded(k, off, s).1 && s.readable
    ensures Guarded(k, off, s).0 == Keys(off, off) <==> k.allOff == k.defaultOff || k.allOff != off
  {}

  /** Actions one after the other, each with its own luck. */
  function After(k: Keys, actions: seq<(bool, Sysctl)>): Keys
    decreases |actions|
  {
    if |actions| == 0 then k
    else After(Guarded(k, actions[0].0, actions[0].1).0, actions[1..])
  }

  /** Such a half-done disable reports a failure and leaves the keys apart. */
  lemma HalfDisable(k: Keys, s: Sysctl)
    requires !k.allOff && !k.defaultOff && s.allAccepts && !s.defaultAccepts
    ensures Guarded(k, true, s) == (Keys(true, false), false)
  {}

  /**
    A disable that got through to the first key only is never completed: every
    later disable reports success and leaves the second key as it is.
   */
  lemma {:induction false} HalfDisabledStays(k: Keys, actions: seq<(bool, Sysctl)>)
    requires k == Keys(true, false)
    requires forall i | 0 <= i < |actions| :: actions[i].0 && actions[i].1.readable
    ensures After(k, actions) == k
    ensures forall i | 0 <= i < |actions| :: Guarded(k, true, actions[i].1) == (k, true)
  {
    if |actions| > 0 {
      HalfDisabledStays(k, actions[1..]);
      forall i | 0 <= i < |actions| ensures Guarded(k, true, actions[i].1) == (k, true) {}
    }
  }

  /** No write is accepted for one key and then refused for the other. */
  predicate AllOrNothing(actions: seq<(bool, Sysctl)>) {
    forall i | 0 <= i < |actions| :: actions[i].1.allAccepts ==> actions[i].1.defaultAccepts
  }

  /** Without such halves the keys stay in step over any run, and the last action that works decides. */
  lemma {:induction false} InStepStays(k: Keys, actions: seq<(bool, Sysctl)>)
    requires k.allOff == k.defaultOff && AllOrNothing(actions)
    ensures After(k, actions).allOff == After(k, actions).defaultOff
    ensures |actions| > 0 && Works(actions[|actions| - 1].1)
      ==> After(k, actions) == Keys(actions[|actions| - 1].0, actions[|actions| - 1].0)
    decreases |actions|
  {
    if |actions| > 0 {
      assert AllOrNothing(actions[1..]) by {
        forall i | 0 <= i < |actions| - 1
          ensures actions[1..][i].1.allAccepts ==> actions[1..][i].1.defaultAccepts
        {
          assert actions[1..][i] == actions[i + 1];
        }
      }
      InStepStays(Guarded(k, actions[0].0, actions[0].1).0, actions[1..]);
    }
  }
}

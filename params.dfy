// Keyword-argument bundles (param.py): a dictionary of named values with a lookup that never
// raises and merges that fill in defaults or override values.

module Params {
  import opened Text

  /** A merge that evaluates to a dictionary, or stops on a name no scope defines. */
  datatype Merge<V> = Merged(args: map<string, V>) | NameError

  /** The Python version the interpreter reports, as (major, minor). */
  datatype Version = Version(major: nat, minor: nat)

  predicate AtLeast(v: Version, major: nat, minor: nat) {
    v.major > major || (v.major == major && v.minor >= minor)
  }

  /** `kwargs` augmented, not overwritten, by `defaults`: every key of either, with the
      caller's value wherever the caller gave one. */
  function Augmented<V>(kwargs: map<string, V>, defaults: map<string, V>): (r: map<string, V>)
    ensures r.Keys == kwargs.Keys + defaults.Keys
    ensures forall k :: k in kwargs ==> r[k] == kwargs[k]
    ensures forall k :: k in defaults && k !in kwargs ==> r[k] == defaults[k]
  {
    defaults + kwargs
  }

  /** `kwargs` with every key of `overriding` set to the overriding value. */
  function Overridden<V>(kwargs: map<string, V>, overriding: map<string, V>): (r: map<string, V>)
    ensures r.Keys == kwargs.Keys + overriding.Keys
    ensures forall k :: k in overriding ==> r[k] == overriding[k]
    ensures forall k :: k in kwargs && k !in overriding ==> r[k] == kwargs[k]
  {
    kwargs + overriding
  }

  /** `defaultKWArgs` (param.py:75-89): from 3.9 on `defaults | kwargs`, from 3.5 on
      `{**defaults, **kwargs}`, before that a loop that adds the missing defaults to `kwargs`.
      Every branch gives the augmented dictionary. */
  method DefaultKWArgs<V>(version: Version, kwargs: map<string, V>, defaults: map<string, V>)
      returns (r: map<string, V>)
    ensures r == Augmented(kwargs, defaults)
  {
    if AtLeast(version, 3, 9) {
      r := defaults + kwargs;
    } else if AtLeast(version, 3, 5) {
      r := defaults + kwargs;
    } else {
      r := AddMissing(kwargs, defaults);
    }
  }

  /** The loop of `defaultKWArgs` before Python 3.5 (param.py:86-89): each default whose key
      the caller did not give is added to `kwargs`. */
  method AddMissing<V>(kwargs: map<string, V>, defaults: map<string, V>) returns (r: map<string, V>)
    ensures r == Augmented(kwargs, defaults)
  {
    r := kwargs;
    var rest := defaults.Keys;
    while rest != {}
      invariant rest <= defaults.Keys
      invariant r == Augmented(kwargs, defaults - rest)
      decreases |rest|
    {
      var key :| key in rest;
      AugmentedStep(kwargs, defaults, rest, key);
      if key !in r {
        r := r[key := defaults[key]];
      }
      rest := rest - {key};
    }
    assert defaults - rest == defaults;
  }

  /** `setKWArgs` as written (param.py:93-106): its parameter is `overridingKWargs` but every
      branch reads `overridingKWArgs`, which is not defined, so each raises `NameError`. */
  function SetKWArgsAsWritten<V>(version: Version, kwargs: map<string, V>, overridingKWargs: map<string, V>): (r: Merge<V>)
    ensures r == NameError
  {
    if AtLeast(version, 3, 9) then NameError
    else if AtLeast(version, 3, 5) then NameError
    else NameError
  }

  /** `setKWArgs` as its documentation describes it: values of `kwargs` overwritten by
      those of `overriding`, in every branch. */
  method SetKWArgs<V>(version: Version, kwargs: map<string, V>, overriding: map<string, V>)
      returns (r: Merge<V>)
    ensures r == Merged(Overridden(kwargs, overriding))
  {
    if AtLeast(version, 3, 9) {
      r := Merged(kwargs + overriding);
    } else if AtLeast(version, 3, 5) {
      r := Merged(kwargs + overriding);
    } else {
      var m := Override(kwargs, overriding);
      r := Merged(m);
    }
  }

  /** The loop of `setKWArgs` before Python 3.5 (param.py:104-106): every overriding value is
      stored in `kwargs`. */
  method Override<V>(kwargs: map<string, V>, overriding: map<string, V>) returns (m: map<string, V>)
    ensures m == Overridden(kwargs, overriding)
  {
    m := kwargs;
    var rest := overriding.Keys;
    while rest != {}
      invariant rest <= overriding.Keys
      invariant m == Overridden(kwargs, overriding - rest)
      decreases |rest|
    {
      var key :| key in rest;
      OverriddenStep(kwargs, overriding, rest, key);
      m := m[key := overriding[key]];
      rest := rest - {key};
    }
    assert overriding - rest == overriding;
  }

  /** The documented `setKWArgs` never fails where the written one always does. */
  lemma {:induction false} SetKWArgsFails<V>(version: Version, kwargs: map<string, V>, overriding: map<string, V>)
    ensures SetKWArgsAsWritten(version, kwargs, overriding) == NameError
    ensures SetKWArgsAsWritten(version, kwargs, overriding) != Merged(Overridden(kwargs, overriding))
  {
  }

  /** Maps with the same keys and the same value at each key are equal. */
  lemma {:induction false} Same<V>(m: map<string, V>, n: map<string, V>)
    requires m.Keys == n.Keys && forall k :: k in m ==> m[k] == n[k]
    ensures m == n
  {
  }

  /** One more default taken in: the key is added unless the caller already has it. */
  lemma {:induction false} AugmentedStep<V>(kwargs: map<string, V>, defaults: map<string, V>, rest: set<string>, key: string)
    requires key in rest && rest <= defaults.Keys
    ensures key in Augmented(kwargs, defaults - rest) ==>
      Augmented(kwargs, defaults - (rest - {key})) == Augmented(kwargs, defaults - rest)
    ensures key !in Augmented(kwargs, defaults - rest) ==>
      Augmented(kwargs, defaults - (rest - {key})) == Augmented(kwargs, defaults - rest)[key := defaults[key]]
  {
    var before, after := Augmented(kwargs, defaults - rest), Augmented(kwargs, defaults - (rest - {key}));
    if key in before {
      Same(after, before);
    } else {
      Same(after, before[key := defaults[key]]);
    }
  }

  /** One more overriding value taken in: the key is set. */
  lemma {:induction false} OverriddenStep<V>(kwargs: map<string, V>, overriding: map<string, V>, rest: set<string>, key: string)
    requires key in rest && rest <= overriding.Keys
    ensures Overridden(kwargs, overriding - (rest - {key})) == Overridden(kwargs, overriding - rest)[key := overriding[key]]
  {
    Same(Overridden(kwargs, overriding - (rest - {key})), Overridden(kwargs, overriding - rest)[key := overriding[key]]);
  }

  /** `Params` (param.py:24-132): a case-sensitive dictionary `args`. */
  class Params<V> {
    var args: map<string, V>

    /** `Params(kwargs, **defaults)` (param.py:25-34). */
    constructor(version: Version, kwargs: map<string, V>, defaults: map<string, V>)
      ensures args == Augmented(kwargs, defaults)
    {
      var merged := DefaultKWArgs(version, kwargs, defaults);
      args := merged;
    }

    /** `params[key]` (param.py:59-60): the value, or `None` for an absent key. */
    function Get(key: string): (r: Option<V>)
      reads this
      ensures r.Some? <==> key in args
      ensures r.Some? ==> r.value == args[key]
    {
      if key in args then Some(args[key]) else None
    }

    /** `params[key] = value` (param.py:64-66). */
    method Set(key: string, value: V) returns (r: Params<V>)
      modifies this
      ensures args == old(args)[key := value] && r == this
    {
      args := args[key := value];
      r := this;
    }

    /** `params(**kwargs)` (param.py:38-55): with keyword arguments, those values first
        overwrite; the dictionary is returned. */
    method Call(kwargs: map<string, V>) returns (r: map<string, V>)
      modifies this
      ensures args == Overridden(old(args), kwargs) && r == args
      ensures kwargs == map[] ==> args == old(args)
    {
      if |kwargs| != 0 {
        var _ := SetValues(kwargs);
      }
      Same(args, Overridden(old(args), kwargs));
      r := args;
    }

    /** `setDefaults(**kwargs)` (param.py:110-120): adds only the keys not present. */
    method SetDefaults(kwargs: map<string, V>) returns (r: Params<V>)
      modifies this
      ensures args == Augmented(old(args), kwargs) && r == this
    {
      var rest := kwargs.Keys;
      while rest != {}
        invariant rest <= kwargs.Keys
        invariant args == Augmented(old(args), kwargs - rest)
        decreases |rest|
      {
        var key :| key in rest;
        AugmentedStep(old(args), kwargs, rest, key);
        if key !in args {
          args := args[key := kwargs[key]];
        }
        rest := rest - {key};
      }
      assert kwargs - rest == kwargs;
      r := this;
    }

    /** `setValues(**kwargs)` (param.py:124-132): sets every given key. */
    method SetValues(kwargs: map<string, V>) returns (r: Params<V>)
      modifies this
      ensures args == Overridden(old(args), kwargs) && r == this
    {
      var rest := kwargs.Keys;
      while rest != {}
        invariant rest <= kwargs.Keys
        invariant args == Overridden(old(args), kwargs - rest)
        decreases |rest|
      {
        var key :| key in rest;
        OverriddenStep(old(args), kwargs, rest, key);
        args := args[key := kwargs[key]];
        rest := rest - {key};
      }
      assert kwargs - rest == kwargs;
      r := this;
    }
  }

  /** Setting defaults keeps every value already present and only adds keys. */
  lemma {:induction false} DefaultsKeep<V>(args: map<string, V>, kwargs: map<string, V>, k: string)
    ensures k in args ==> Augmented(args, kwargs)[k] == args[k]
    ensures k !in args && k in kwargs ==> Augmented(args, kwargs)[k] == kwargs[k]
    ensures k in Augmented(args, kwargs) <==> k in args || k in kwargs
  {
  }

  /** Setting defaults twice is setting them once. */
  lemma {:induction false} AugmentedIdempotent<V>(args: map<string, V>, kwargs: map<string, V>)
    ensures Augmented(Augmented(args, kwargs), kwargs) == Augmented(args, kwargs)
  {
    Same(Augmented(Augmented(args, kwargs), kwargs), Augmented(args, kwargs));
  }

  /** Setting values twice is setting them once, and setting defaults afterwards changes
      nothing that was set. */
  lemma {:induction false} OverriddenIdempotent<V>(args: map<string, V>, kwargs: map<string, V>)
    ensures Overridden(Overridden(args, kwargs), kwargs) == Overridden(args, kwargs)
    ensures Augmented(Overridden(args, kwargs), kwargs) == Overridden(args, kwargs)
  {
    Same(Overridden(Overridden(args, kwargs), kwargs), Overridden(args, kwargs));
    Same(Augmented(Overridden(args, kwargs), kwargs), Overridden(args, kwargs));
  }
}

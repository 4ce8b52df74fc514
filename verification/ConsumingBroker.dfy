/** `consuming_broker`: two registries, for used and for unused presets, that
    together implement one map of presets. */
module ConsumingBroker {
  import opened Values
  import opened ParamMachine

  /** The fields of the broker. Parameters are known by number. */
  datatype State = State(
    params: map<string, nat>,
    unused: map<string, Value>,
    used: map<string, Value>,
    origins: map<string, Origin>,
    locked: set<string>)

  const NEW_STATE := State(map[], map[], map[], map[], {})

  /** `set_preset_cci_value`: refused once the name is locked. */
  function SetPreset(s: State, n: string, v: Value, o: Origin): State {
    if n in s.locked then s
    else
      var s' := s.(origins := s.origins[n := o]);
      if n in s.used then s'.(used := s.used[n := v]) else s'.(unused := s.unused[n := v])
  }

  function LockPreset(s: State, n: string): State {
    s.(locked := s.locked + {n})
  }

  /** `map::insert` does not overwrite. */
  function Insert<V>(m: map<string, V>, n: string, v: V): map<string, V> {
    if n in m then m else m[n := v]
  }

  /** `add_param`. An assertion stops the program when the name is taken. */
  function AddParam(s: State, n: string, p: nat): State {
    if n in s.params then s
    else
      var s' := s.(params := s.params[n := p]);
      if n in s.unused then
        s'.(used := Insert(s.used, n, s.unused[n]), unused := s.unused - {n})
      else s'
  }

  function RemoveParam(s: State, n: string): State {
    var s' := s.(params := s.params - {n});
    if n in s.used then
      s'.(unused := Insert(s.unused, n, s.used[n]), used := s.used - {n})
    else s'
  }

  predicate HasPreset(s: State, n: string) {
    n in s.used || n in s.unused
  }

  function GetPreset(s: State, n: string): Value {
    if n in s.used then s.used[n] else if n in s.unused then s.unused[n] else Null
  }

  function GetPresetOrigin(s: State, n: string): Origin {
    if n in s.origins then s.origins[n] else UNKNOWN_ORIGIN
  }

  /** `get_value_origin`; `current` is the value origin of a registered parameter. */
  function GetValueOrigin(s: State, n: string, current: nat -> Origin): Origin {
    if n in s.params then current(s.params[n]) else GetPresetOrigin(s, n)
  }

  datatype Op =
    | DoSetPreset(name: string, value: Value, origin: Origin)
    | DoLockPreset(name: string)
    | DoAddParam(name: string, param: nat)
    | DoRemoveParam(name: string)

  function Apply(s: State, op: Op): State {
    match op
    case DoSetPreset(n, v, o) => SetPreset(s, n, v, o)
    case DoLockPreset(n) => LockPreset(s, n)
    case DoAddParam(n, p) => AddParam(s, n, p)
    case DoRemoveParam(n) => RemoveParam(s, n)
  }

  function ApplyAll(s: State, ops: seq<Op>): State
    decreases |ops|
  {
    if |ops| == 0 then s else ApplyAll(Apply(s, ops[0]), ops[1..])
  }

  // ------------------------------------------------------------ refinement

  /** The two registries are disjoint, hold exactly the names that have a preset
      originator, and used names belong to registered parameters. */
  ghost predicate Consistent(s: State) {
    && s.used.Keys !! s.unused.Keys
    && s.used.Keys + s.unused.Keys == s.origins.Keys
    && s.used.Keys <= s.params.Keys
  }

  /** The presets as one map. */
  ghost function Presets(s: State): map<string, Preset>
    requires Consistent(s)
  {
    map n | n in s.origins :: Preset(GetPreset(s, n), s.origins[n])
  }

  /** What an operation does to the one map. */
  ghost function ApplyToPresets(m: map<string, Preset>, locked: set<string>, op: Op): map<string, Preset> {
    if op.DoSetPreset? && op.name !in locked then m[op.name := Preset(op.value, op.origin)] else m
  }

  lemma AddParamRefines(s: State, n: string, p: nat)
    requires Consistent(s)
    ensures Consistent(AddParam(s, n, p)) && Presets(AddParam(s, n, p)) == Presets(s)
  {
  }

  lemma RemoveParamRefines(s: State, n: string)
    requires Consistent(s)
    ensures Consistent(RemoveParam(s, n)) && Presets(RemoveParam(s, n)) == Presets(s)
  {
  }

  /** Every operation keeps the registries consistent and acts on the one map;
      adding and removing parameters do not change it at all. */
  lemma ApplyRefines(s: State, op: Op)
    requires Consistent(s)
    ensures Consistent(Apply(s, op))
    ensures Presets(Apply(s, op)) == ApplyToPresets(Presets(s), s.locked, op)
    ensures forall n :: HasPreset(s, n) <==> n in Presets(s)
  {
    match op
    case DoSetPreset(n, v, o) =>
    case DoLockPreset(n) =>
    case DoAddParam(n, p) => AddParamRefines(s, n, p);
    case DoRemoveParam(n) => RemoveParamRefines(s, n);
  }

  /** Adding a parameter registers its name and moves a waiting preset to the used
      ones; from then on the name has the value origin of the parameter. */
  lemma AddTakesUp(s: State, n: string, p: nat, m: string, current: nat -> Origin)
    requires Consistent(s) && n !in s.params
    ensures
      var t := Apply(s, DoAddParam(n, p));
      && t.params == s.params[n := p] && t.origins == s.origins && t.locked == s.locked
      && n !in t.unused && (n in t.used <==> n in s.unused) && (n in s.unused ==> t.used[n] == s.unused[n])
      && GetValueOrigin(t, n, current) == current(p)
      && (m != n ==> SameEntries(s, t, m))
  {
  }

  /** Removing it undoes that, and the preset waits again with its originator. */
  lemma RemoveGivesBack(s: State, n: string, m: string, current: nat -> Origin)
    requires Consistent(s) && n in s.params
    ensures
      var t := Apply(s, DoRemoveParam(n));
      && t.params == s.params - {n} && t.origins == s.origins && t.locked == s.locked
      && n !in t.used && (n in s.used ==> n in t.unused && t.unused[n] == s.used[n])
      && (n in t.unused ==> n in s.used || n in s.unused)
      && GetValueOrigin(t, n, current) == (if n in s.origins then s.origins[n] else UNKNOWN_ORIGIN)
      && (m != n ==> SameEntries(s, t, m))
  {
  }

  ghost predicate SameEntries(s: State, t: State, m: string) {
    && (m in s.used <==> m in t.used) && (m in s.used ==> t.used[m] == s.used[m])
    && (m in s.unused <==> m in t.unused) && (m in s.unused ==> t.unused[m] == s.unused[m])
  }

  /** A set goes to the used presets if the name is in use with a preset, and waits
      otherwise; a locked name refuses it. */
  lemma SetGoesWhere(s: State, n: string, v: Value, o: Origin)
    ensures
      var t := Apply(s, DoSetPreset(n, v, o));
      && t.params == s.params && t.locked == s.locked
      && (n in s.locked ==> t == s)
      && (n !in s.locked ==>
            && t.origins == s.origins[n := o]
            && (if n in s.used then t.used == s.used[n := v] && t.unused == s.unused
                else t.used == s.used && t.unused == s.unused[n := v]))
  {
  }

  lemma {:induction false} RunKeepsConsistency(s: State, ops: seq<Op>)
    requires Consistent(s)
    ensures Consistent(ApplyAll(s, ops))
    decreases |ops|
  {
    if |ops| > 0 {
      ApplyRefines(s, ops[0]);
      RunKeepsConsistency(Apply(s, ops[0]), ops[1..]);
    }
  }

  ghost predicate SetsNothing(ops: seq<Op>) {
    forall op :: op in ops ==> !op.DoSetPreset?
  }

  /** Any number of rounds of creating and destroying parameters loses no preset. */
  lemma {:induction false} RoundsLoseNothing(s: State, ops: seq<Op>)
    requires Consistent(s) && SetsNothing(ops)
    ensures Consistent(ApplyAll(s, ops)) && Presets(ApplyAll(s, ops)) == Presets(s)
    decreases |ops|
  {
    if |ops| > 0 {
      assert ops[0] in ops;
      ApplyRefines(s, ops[0]);
      RoundsLoseNothing(Apply(s, ops[0]), ops[1..]);
    }
  }

  // ----------------------------------------------------------- locked names

  /** `init`: the value and the origin with which a parameter starts. */
  function StartOf(s: State, n: string, default: Value, owner: Origin, current: nat -> Origin): Preset {
    if HasPreset(s, n) then Preset(GetPreset(s, n), GetValueOrigin(s, n, current))
    else Preset(default, owner)
  }

  ghost predicate SamePreset(s: State, t: State, n: string) {
    && (HasPreset(s, n) <==> HasPreset(t, n))
    && GetPreset(s, n) == GetPreset(t, n)
    && GetPresetOrigin(s, n) == GetPresetOrigin(t, n)
  }

  lemma ApplyKeepsLocked(s: State, op: Op, n: string)
    requires Consistent(s) && n in s.locked
    ensures n in Apply(s, op).locked && SamePreset(s, Apply(s, op), n)
  {
    ApplyRefines(s, op);
    var t := Apply(s, op);
    assert n in Presets(s) <==> n in Presets(t);
    if n in Presets(s) { assert Presets(s)[n] == Presets(t)[n]; }
  }

  lemma {:induction false} LockedPresetStays(s: State, ops: seq<Op>, n: string)
    requires Consistent(s) && n in s.locked
    ensures Consistent(ApplyAll(s, ops)) && n in ApplyAll(s, ops).locked
    ensures SamePreset(s, ApplyAll(s, ops), n)
    decreases |ops|
  {
    if |ops| > 0 {
      ApplyRefines(s, ops[0]);
      ApplyKeepsLocked(s, ops[0], n);
      LockedPresetStays(Apply(s, ops[0]), ops[1..], n);
    }
  }

  /** Once a name is locked, every later parameter of that name, resurrected or
      not, starts with the preset value and origin of the time of the lock, or
      with its own default if there was none. */
  lemma LockedNameStartsAlike(s: State, ops: seq<Op>, n: string, default: Value, owner: Origin, current: nat -> Origin)
    requires Consistent(s) && n !in ApplyAll(LockPreset(s, n), ops).params
    ensures StartOf(ApplyAll(LockPreset(s, n), ops), n, default, owner, current) ==
            if n in Presets(s) then Presets(s)[n] else Preset(default, owner)
  {
    var s1 := LockPreset(s, n);
    ApplyRefines(s, DoLockPreset(n));
    LockedPresetStays(s1, ops, n);
  }

  // ------------------------------------------------------------- the object

  class PlainBroker {
    var params: map<string, nat>
    var unused: map<string, Value>
    var used: map<string, Value>
    var origins: map<string, Origin>
    var locked: set<string>
    const throws: bool

    ghost function Contents(): State
      reads this
    {
      State(params, unused, used, origins, locked)
    }

    constructor (mayThrow: bool)
      ensures Contents() == NEW_STATE && throws == mayThrow
    {
      params, unused, used, origins, locked := map[], map[], map[], map[], {};
      throws := mayThrow;
    }

    method SetPresetValue(n: string, v: Value, o: Origin) returns (r: Response)
      modifies this
      ensures Contents() == SetPreset(old(Contents()), n, v, o)
      ensures r == if n !in old(locked) then Ok else if throws then Raised else No
    {
      if n in locked {
        return if throws then Raised else No;
      }
      if n in used {
        used := used[n := v];
      } else {
        unused := unused[n := v];
      }
      origins := origins[n := o];
      r := Ok;
    }

    method LockPresetValue(n: string)
      modifies this
      ensures Contents() == LockPreset(old(Contents()), n)
    {
      locked := locked + {n};
    }

    method Add(n: string, p: nat)
      requires n !in params
      modifies this
      ensures Contents() == AddParam(old(Contents()), n, p)
    {
      params := params[n := p];
      if n in unused {
        if n !in used {
          used := used[n := unused[n]];
        }
        unused := unused - {n};
      }
    }

    method Remove(n: string)
      modifies this
      ensures Contents() == RemoveParam(old(Contents()), n)
    {
      params := params - {n};
      if n in used {
        if n !in unused {
          unused := unused[n := used[n]];
        }
        used := used - {n};
      }
    }

    /** `has_preset_value` and `get_preset_cci_value` agree with the one map. */
    method LookupPreset(n: string) returns (found: bool, v: Value)
      requires Consistent(Contents())
      ensures found <==> n in Presets(Contents())
      ensures v == if found then Presets(Contents())[n].value else Null
    {
      if n in used {
        found, v := true, used[n];
      } else if n in unused {
        found, v := true, unused[n];
      } else {
        found, v := false, Null;
      }
    }
  }
}

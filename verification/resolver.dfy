/** The defaults resolver: the built-in DCC record, the world-stored defaults
    laid over it, and an actor's own `flags.dcc` laid over those. */
module Resolver {
  import opened Values

  /** The five fields of a DCC record. */
  const DccFields: set<string> := {"audience", "hype", "style", "grit", "provenance"}

  /** `DEFAULT_DCC`: all four numbers 0, provenance "synthesized". */
  const DefaultDcc: Record :=
    map["audience" := Num(0), "hype" := Num(0), "style" := Num(0), "grit" := Num(0),
        "provenance" := Str("synthesized")]

  /** `mergeObject(structuredClone(original), other, {inplace: false})` on flat
      records: a new record in which every field of `other` wins and every
      other field of `original` passes through. Neither input is changed. */
  function MergeObject(original: Record, other: Record): (r: Record)
    ensures r.Keys == original.Keys + other.Keys
    ensures forall k :: k in other ==> r[k] == other[k]
    ensures forall k :: k in original && k !in other ==> r[k] == original[k]
  {
    original + other
  }

  /** `getDccDefaults()`: the stored world setting (absent: `{}`) over
      `DEFAULT_DCC`. */
  function GetDccDefaults(stored: Option<Record>): (d: Record)
    ensures d.Keys == DccFields + OrEmpty(stored).Keys
    ensures forall k :: k in OrEmpty(stored) ==> d[k] == OrEmpty(stored)[k]
    ensures forall k :: k in DccFields && k !in OrEmpty(stored) ==> d[k] == DefaultDcc[k]
  {
    MergeObject(DefaultDcc, OrEmpty(stored))
  }

  /** The effective DCC record of an actor: its `flags.dcc` (absent: `{}`)
      over the resolved defaults. */
  function ResolveDcc(stored: Option<Record>, actorFlags: Option<Record>): (r: Record)
    ensures DccFields <= r.Keys
    ensures r.Keys == DccFields + OrEmpty(stored).Keys + OrEmpty(actorFlags).Keys
    ensures forall k :: k in OrEmpty(actorFlags) ==> r[k] == OrEmpty(actorFlags)[k]
    ensures forall k :: k in r && k !in OrEmpty(actorFlags) ==> r[k] == GetDccDefaults(stored)[k]
  {
    MergeObject(GetDccDefaults(stored), OrEmpty(actorFlags))
  }

  /** The `getRollData` wrapper: the host's roll data with `dcc` set to the
      actor's effective DCC record; every other entry is the host's. */
  function RollData(data: map<string, Entry>, stored: Option<Record>, actorFlags: Option<Record>)
    : (r: map<string, Entry>)
    ensures r.Keys == data.Keys + {"dcc"}
    ensures r["dcc"] == Group(ResolveDcc(stored, actorFlags))
    ensures DccFields <= r["dcc"].fields.Keys
    ensures forall k :: k in data && k != "dcc" ==> r[k] == data[k]
  {
    data["dcc" := Group(ResolveDcc(stored, actorFlags))]
  }

  /** `DEFAULT_DCC` holds exactly the five DCC fields: the four numbers at 0
      and provenance "synthesized". */
  lemma DefaultDccValues()
    ensures DefaultDcc.Keys == DccFields
    ensures forall k :: k in DccFields && k != "provenance" ==> DefaultDcc[k] == Num(0)
    ensures DefaultDcc["provenance"] == Str("synthesized")
  {
  }

  /** With no stored setting, or with the registered default stored, the
      defaults are exactly `DEFAULT_DCC`. */
  lemma DefaultsWithoutStoredSetting()
    ensures GetDccDefaults(None) == DefaultDcc
    ensures GetDccDefaults(Some(map[])) == DefaultDcc
    ensures GetDccDefaults(Some(DefaultDcc)) == DefaultDcc
  {
  }

  /** A stored setting that agrees with `DEFAULT_DCC` on the fields it holds
      leaves the defaults as they were. */
  lemma StoredSettingOverridesOnlyItsFields(stored: Record)
    ensures (forall f :: f in stored ==> f in DefaultDcc && stored[f] == DefaultDcc[f]) ==>
              GetDccDefaults(Some(stored)) == DefaultDcc
  {
  }

  /** A record that already holds every field of `defaults` is left as it is
      by the merge, and only such a record is. */
  lemma MergeFixedPoint(defaults: Record, current: Record)
    ensures MergeObject(defaults, current) == current <==> defaults.Keys <= current.Keys
  {
  }

  /** Resolving an already-resolved record with the same defaults changes
      nothing. */
  lemma MergeIdempotent(defaults: Record, current: Record)
    ensures MergeObject(defaults, MergeObject(defaults, current)) == MergeObject(defaults, current)
  {
  }

  /** Laying the resolved record over the record it came from gives the
      resolved record: patching with it amounts to replacing. */
  lemma PatchWithMergedReplaces(defaults: Record, current: Record)
    ensures MergeObject(current, MergeObject(defaults, current)) == MergeObject(defaults, current)
  {
  }

  /** Defaults `DEFAULT_DCC` and flags `{hype: 3}` resolve to hype 3 and the
      other defaults. */
  lemma ResolveHypeExample()
    ensures ResolveDcc(None, Some(map["hype" := Num(3)])) ==
            map["audience" := Num(0), "hype" := Num(3), "style" := Num(0), "grit" := Num(0),
                "provenance" := Str("synthesized")]
  {
  }
}

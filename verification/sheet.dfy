/** The optional character sheet: the context it renders with, and the
    form-submission filter that saves the `flags.dcc.*` inputs. */
module Sheet {
  import opened Values
  import opened Resolver

  /** The render context of the sheet: the host's entries, its `flags` object
      (flag scope to record, possibly absent) and its `dcc` entry. In the host
      `flags` and `dcc` are entries of the same object, so `data` holds the
      other entries only and never the keys "flags" or "dcc". */
  datatype SheetContext = SheetContext(data: map<string, Entry>, flags: Option<map<string, Record>>, dcc: Option<Record>)

  /** `getData`: the host's context with the actor's effective DCC record set
      as both `flags.dcc` and `dcc`; the other flag scopes and entries stay. */
  function GetData(context: SheetContext, stored: Option<Record>, actorFlags: Option<Record>): (r: SheetContext)
    ensures r.data == context.data
    ensures r.dcc == Some(ResolveDcc(stored, actorFlags))
    ensures r.flags.Some? && "dcc" in r.flags.value && r.flags.value["dcc"] == r.dcc.value
    ensures DccFields <= r.dcc.value.Keys
    ensures context.flags.Some? ==> r.flags.value.Keys == context.flags.value.Keys + {"dcc"}
    ensures context.flags.None? ==> r.flags.value.Keys == {"dcc"}
    ensures context.flags.Some? ==>
      forall scope :: scope in context.flags.value && scope != "dcc" ==> r.flags.value[scope] == context.flags.value[scope]
  {
    var merged := ResolveDcc(stored, actorFlags);
    var flags := if context.flags.Some? then context.flags.value else map[];
    context.(flags := Some(flags["dcc" := merged]), dcc := Some(merged))
  }

  /** The form fields this sheet saves start with this prefix. */
  const DccPrefix: string := "flags.dcc."

  /** `key.startsWith("flags.dcc.")`. */
  predicate IsDccKey(key: string)
    ensures IsDccKey(key) <==> |key| >= 10 && key[..10] == "flags.dcc."
  {
    DccPrefix <= key
  }

  /** One form entry: a field name and the value submitted for it. */
  type FormEntry = (string, Value)

  /** The field names of a form. */
  function KeysOf(form: seq<FormEntry>): set<string>
  {
    set i | 0 <= i < |form| :: form[i].0
  }

  /** `value === "" ? 0 : Number(value)`: always a number. */
  function Coerce(v: Value): (r: Value)
    ensures r.Num? || r.NaN?
    ensures v == Str("") ==> r == Num(0)
    ensures v.Num? ==> r == v
  {
    if v == Str("") then Num(0) else ToNumber(v)
  }

  /** The `dccUpdates` dictionary built from a submitted form: every
      `flags.dcc.*` field and no other, each with its coerced value (a later
      entry for the same field wins, as in a dictionary). */
  function FormUpdates(form: seq<FormEntry>): (u: map<string, Value>)
    ensures forall k :: k in u <==> IsDccKey(k) && k in KeysOf(form)
    ensures forall k :: k in u ==> u[k].Num? || u[k].NaN?
    ensures forall i :: 0 <= i < |form| && IsDccKey(form[i].0) && form[i].0 !in KeysOf(form[i + 1..]) ==>
      form[i].0 in u && u[form[i].0] == Coerce(form[i].1)
  {
    if form == [] then map[]
    else
      var n := |form| - 1;
      var prev := FormUpdates(form[..n]);
      FormUpdatesStep(form, prev);
      if IsDccKey(form[n].0) then prev[form[n].0 := Coerce(form[n].1)] else prev
  }

  /** The field names of a form with one more entry. */
  lemma KeysOfSnoc(form: seq<FormEntry>, e: FormEntry)
    ensures KeysOf(form + [e]) == KeysOf(form) + {e.0}
  {
    var f := form + [e];
    assert f[|form|] == e;
    forall k | k in KeysOf(form) ensures k in KeysOf(f) {
      var i :| 0 <= i < |form| && form[i].0 == k;
      assert f[i] == form[i];
    }
  }

  /** Adding the last entry of the form to the updates of the entries before
      it keeps the contract of `FormUpdates`. */
  lemma FormUpdatesStep(form: seq<FormEntry>, prev: map<string, Value>)
    requires |form| > 0
    requires var init := form[..|form| - 1];
      && (forall k :: k in prev <==> IsDccKey(k) && k in KeysOf(init))
      && (forall k :: k in prev ==> prev[k].Num? || prev[k].NaN?)
      && (forall i :: 0 <= i < |init| && IsDccKey(init[i].0) && init[i].0 !in KeysOf(init[i + 1..]) ==>
            init[i].0 in prev && prev[init[i].0] == Coerce(init[i].1))
    ensures var n := |form| - 1;
      var u := if IsDccKey(form[n].0) then prev[form[n].0 := Coerce(form[n].1)] else prev;
      && (forall k :: k in u <==> IsDccKey(k) && k in KeysOf(form))
      && (forall k :: k in u ==> u[k].Num? || u[k].NaN?)
      && (forall i :: 0 <= i < |form| && IsDccKey(form[i].0) && form[i].0 !in KeysOf(form[i + 1..]) ==>
            form[i].0 in u && u[form[i].0] == Coerce(form[i].1))
  {
    var n := |form| - 1;
    var init := form[..n];
    assert form == init + [form[n]];
    KeysOfSnoc(init, form[n]);
    var u := if IsDccKey(form[n].0) then prev[form[n].0 := Coerce(form[n].1)] else prev;
    forall i | 0 <= i < |form| && IsDccKey(form[i].0) && form[i].0 !in KeysOf(form[i + 1..])
      ensures form[i].0 in u && u[form[i].0] == Coerce(form[i].1)
    {
      if i < n {
        assert form[i + 1..] == init[i + 1..] + [form[n]];
        KeysOfSnoc(init[i + 1..], form[n]);
        assert init[i] == form[i];
      }
    }
  }

  /** The loop of `_updateObject` that fills `dccUpdates`. */
  method CollectDccUpdates(form: seq<FormEntry>) returns (updates: map<string, Value>)
    ensures updates == FormUpdates(form)
  {
    updates := map[];
    for i := 0 to |form|
      invariant updates == FormUpdates(form[..i])
    {
      var (key, value) := form[i];
      assert form[..i + 1][..i] == form[..i];
      if IsDccKey(key) {
        updates := updates[key := if value == Str("") then Num(0) else ToNumber(value)];
      }
    }
    assert form[..|form|] == form;
  }

  /** The sheet's effects on the host: the patches sent to `actor.update` and
      the forms passed on to the parent submission handler. */
  class CharacterSheetDcc {
    var actorUpdates: seq<map<string, Value>>
    var parentSubmissions: seq<seq<FormEntry>>

    constructor ()
      ensures actorUpdates == [] && parentSubmissions == []
    {
      actorUpdates := [];
      parentSubmissions := [];
    }

    /** `_updateObject`: send the DCC fields to `actor.update` when there is at
        least one, then hand the whole form to the parent handler. When the
        host rejects the update (`updateRejects`), the rejection propagates
        and the parent handler is not reached (`ok` is false). */
    method UpdateObject(formData: seq<FormEntry>, updateRejects: bool) returns (ok: bool)
      modifies this
      ensures var u := FormUpdates(formData);
        && ok == (u == map[] || !updateRejects)
        && actorUpdates == old(actorUpdates) + (if u != map[] && ok then [u] else [])
        && parentSubmissions == old(parentSubmissions) + (if ok then [formData] else [])
    {
      var dccUpdates := CollectDccUpdates(formData);
      if |dccUpdates| > 0 {
        if updateRejects {
          return false;
        }
        actorUpdates := actorUpdates + [dccUpdates];
      }
      parentSubmissions := parentSubmissions + [formData];
      ok := true;
    }
  }

  /** The sheet saves exactly the `flags.dcc.*` fields: a form without one
      leads to no update, and every saved value is a number. */
  lemma OnlyDccFieldsSaved(form: seq<FormEntry>)
    ensures FormUpdates(form) == map[] <==> forall i :: 0 <= i < |form| ==> !IsDccKey(form[i].0)
    ensures forall i :: 0 <= i < |form| && form[i].0 !in KeysOf(form[i + 1..]) && form[i].1 == Str("") && IsDccKey(form[i].0) ==>
      FormUpdates(form)[form[i].0] == Num(0)
  {
  }

  /** The explicit empty-string branch agrees with `Number("")`, which is 0
      as well. */
  lemma CoerceIsNumber(v: Value)
    ensures Coerce(v) == ToNumber(v)
  {
  }
}

/** The booking audit trail: before a booking is saved, one "updated" entry per
    field whose value differs from the stored row; after a booking is first
    saved, one "created" entry. Entries are appended to an in-memory log. */
module AuditSignals {
  import opened Common
  import opened Text

  /** The field values the trail compares and renders. */
  datatype FieldValue = NoneValue | BoolValue(b: bool) | IntValue(i: int) | TextValue(s: string)

  /** `str()` of a value. */
  function Render(v: FieldValue): string {
    match v
    case NoneValue => "None"
    case BoolValue(b) => if b then "True" else "False"
    case IntValue(i) => IntToDecimal(i)
    case TextValue(s) => s
  }

  /** Python's truth test: `None`, `False`, `0` and `""` are false. */
  predicate Truthy(v: FieldValue) {
    match v
    case NoneValue => false
    case BoolValue(b) => b
    case IntValue(i) => i != 0
    case TextValue(s) => s != ""
  }

  /** Python's `==` on these values, where `True == 1` and `False == 0`. */
  predicate PyEquals(a: FieldValue, b: FieldValue) {
    match (a, b)
    case (BoolValue(x), IntValue(n)) => n == (if x then 1 else 0)
    case (IntValue(n), BoolValue(x)) => n == (if x then 1 else 0)
    case _ => a == b
  }

  /** A model instance: its primary key and the attributes it carries. An
      attribute missing from the map is one whose lookup raises. */
  datatype ModelInstance = ModelInstance(pk: FieldValue, attributes: map<string, FieldValue>)

  datatype AuditEntry = AuditEntry(
    actor: Option<string>,
    moduleName: string,
    objectPk: string,
    action: string,
    fieldName: string,
    oldValue: string,
    newValue: string,
    channel: string,
    notes: string)

  /** Only bookings are audited. */
  const AuditedSender := "Booking"

  /** Rendered values are cut to this many characters. */
  const MaxValueLength := 2000

  /** How many characters of a rendering are stored: all of it, up to the limit. */
  function Cut(s: string): (k: nat)
    ensures k <= |s| && k <= MaxValueLength
    ensures k == |s| || k == MaxValueLength
  {
    if |s| <= MaxValueLength then |s| else MaxValueLength
  }

  function Truncate(s: string, n: nat): (r: string)
    ensures |r| <= n && r <= s
    ensures |s| <= n ==> r == s
    ensures |s| > n ==> r == s[..n]
  {
    if |s| <= n then s else s[..n]
  }

  /** The key an entry names: the booking's `booking_id` when it has one,
      otherwise its primary key, rendered. */
  function ObjectPk(instance: ModelInstance): (r: string)
    ensures var key := if "booking_id" in instance.attributes then instance.attributes["booking_id"] else instance.pk;
      && (key.IntValue? ==> ParseInt(r) == Some(key.i))
      && (key.IntValue? && key.i >= 0 ==> AllDigits(r) && (|r| > 1 ==> r[0] != '0'))
      && (key.IntValue? && key.i < 0 ==> r[0] == '-')
      && (key.TextValue? ==> r == key.s)
      && (key.NoneValue? ==> r == "None")
      && (key.BoolValue? ==> r == if key.b then "True" else "False")
  {
    var key := if "booking_id" in instance.attributes then instance.attributes["booking_id"] else instance.pk;
    ParseIntOfDecimal(if key.IntValue? then key.i else 0);
    NoLeadingZero(if key.IntValue? && key.i >= 0 then key.i else 0);
    Render(key)
  }

  /** A field counts as changed when both records have it and the values differ. */
  predicate FieldChanged(original: ModelInstance, instance: ModelInstance, field: string) {
    && field in original.attributes
    && field in instance.attributes
    && !PyEquals(original.attributes[field], instance.attributes[field])
  }

  function UpdateEntry(original: ModelInstance, instance: ModelInstance, field: string): AuditEntry
    requires field in original.attributes && field in instance.attributes
  {
    AuditEntry(None, "bookings", ObjectPk(instance), "updated", field,
      Truncate(Render(original.attributes[field]), MaxValueLength),
      Truncate(Render(instance.attributes[field]), MaxValueLength), "", "")
  }

  /** The entries for the fields in `fields`, in that order. */
  function FieldDiffs(original: ModelInstance, instance: ModelInstance, fields: seq<string>): seq<AuditEntry> {
    if |fields| == 0 then []
    else
      var field := fields[|fields| - 1];
      FieldDiffs(original, instance, fields[..|fields| - 1])
        + if FieldChanged(original, instance, field) then [UpdateEntry(original, instance, field)] else []
  }

  /** What the pre-save hook records when `instance` is about to be saved over
      the stored rows `stored`, comparing the model's fields `fields`. */
  function ChangeEntries(sender: string, instance: ModelInstance, stored: map<FieldValue, ModelInstance>, fields: seq<string>): (r: seq<AuditEntry>)
    ensures |r| <= |fields|
    ensures forall e :: e in r ==>
      && e.action == "updated" && e.moduleName == "bookings" && e.actor.None?
      && e.objectPk == ObjectPk(instance) && e.fieldName in fields
  {
    if sender != AuditedSender || !Truthy(instance.pk) || instance.pk !in stored then []
    else
      DiffEntriesDescribeChanges(stored[instance.pk], instance, fields);
      DiffCountBounded(stored[instance.pk], instance, fields);
      FieldDiffs(stored[instance.pk], instance, fields)
  }

  /** What the post-save hook records. */
  function CreationEntry(instance: ModelInstance): AuditEntry {
    AuditEntry(None, "bookings", ObjectPk(instance), "created", "", "", "", "", "Created via system")
  }

  /** What the post-save hook records: one entry for a booking's first save,
      nothing otherwise. */
  function CreateEntries(sender: string, instance: ModelInstance, created: bool): (r: seq<AuditEntry>)
    ensures |r| == if sender == AuditedSender && created then 1 else 0
    ensures forall e :: e in r ==>
      && e.action == "created" && e.moduleName == "bookings" && e.actor.None?
      && e.objectPk == ObjectPk(instance) && e.fieldName == "" && e.notes == "Created via system"
  {
    if sender == AuditedSender && created then [CreationEntry(instance)] else []
  }

  // ---------------------------------------------------------------------------
  // Properties of the trail
  // ---------------------------------------------------------------------------

  /** Every entry is an update of a listed, changed field, with both values
      rendered and cut to the limit. */
  lemma {:induction false} DiffEntriesDescribeChanges(original: ModelInstance, instance: ModelInstance, fields: seq<string>)
    ensures forall e :: e in FieldDiffs(original, instance, fields) ==>
      && e.fieldName in fields
      && FieldChanged(original, instance, e.fieldName)
      && e == UpdateEntry(original, instance, e.fieldName)
  {
    if |fields| > 0 {
      DiffEntriesDescribeChanges(original, instance, fields[..|fields| - 1]);
      forall e | e in FieldDiffs(original, instance, fields[..|fields| - 1])
        ensures e.fieldName in fields
      {
        assert e.fieldName in fields[..|fields| - 1];
      }
    }
  }

  /** Every listed field that changed has an entry. */
  lemma {:induction false} ChangedFieldsAreRecorded(original: ModelInstance, instance: ModelInstance, fields: seq<string>, field: string)
    requires field in fields && FieldChanged(original, instance, field)
    ensures UpdateEntry(original, instance, field) in FieldDiffs(original, instance, fields)
  {
    var last := fields[|fields| - 1];
    if field != last {
      var k :| 0 <= k < |fields| && fields[k] == field;
      assert fields[..|fields| - 1][k] == field;
      ChangedFieldsAreRecorded(original, instance, fields[..|fields| - 1], field);
    }
  }

  /** The entries of a field list are those of its parts, in order: each field
      contributes its own entries where it stands. */
  lemma {:induction false} FieldDiffsConcat(original: ModelInstance, instance: ModelInstance, a: seq<string>, b: seq<string>)
    ensures FieldDiffs(original, instance, a + b) == FieldDiffs(original, instance, a) + FieldDiffs(original, instance, b)
  {
    if |b| == 0 {
      assert a + b == a;
    } else {
      var ab := a + b;
      assert ab[..|ab| - 1] == a + b[..|b| - 1];
      assert ab[|ab| - 1] == b[|b| - 1];
      FieldDiffsConcat(original, instance, a, b[..|b| - 1]);
    }
  }

  /** A single field contributes one update entry when it changed, none otherwise. */
  lemma FieldDiffsOfOne(original: ModelInstance, instance: ModelInstance, field: string)
    ensures FieldDiffs(original, instance, [field]) ==
      if FieldChanged(original, instance, field) then [UpdateEntry(original, instance, field)] else []
  {
    assert [field][..0] == [];
  }

  /** For a model's distinct fields there is exactly one entry per changed field. */
  lemma {:induction false} DiffCountIsChangedCount(original: ModelInstance, instance: ModelInstance, fields: seq<string>)
    requires forall i, j :: 0 <= i < j < |fields| ==> fields[i] != fields[j]
    ensures |FieldDiffs(original, instance, fields)| == |set f | f in fields && FieldChanged(original, instance, f)|
  {
    var changed := set f | f in fields && FieldChanged(original, instance, f);
    if |fields| == 0 {
      assert changed == {};
    } else {
      var init, last := fields[..|fields| - 1], fields[|fields| - 1];
      var before := set f | f in init && FieldChanged(original, instance, f);
      DiffCountIsChangedCount(original, instance, init);
      assert fields == init + [last];
      FieldDiffsConcat(original, instance, init, [last]);
      FieldDiffsOfOne(original, instance, last);
      assert last !in init;
      if FieldChanged(original, instance, last) {
        assert changed == before + {last};
      } else {
        assert changed == before;
      }
    }
  }

  /** A field is named by an entry exactly when it is listed and changed. */
  lemma EntryForFieldIffChanged(original: ModelInstance, instance: ModelInstance, fields: seq<string>, field: string)
    ensures (exists e :: e in FieldDiffs(original, instance, fields) && e.fieldName == field)
      <==> field in fields && FieldChanged(original, instance, field)
  {
    DiffEntriesDescribeChanges(original, instance, fields);
    if field in fields && FieldChanged(original, instance, field) {
      ChangedFieldsAreRecorded(original, instance, fields, field);
      assert UpdateEntry(original, instance, field).fieldName == field;
    }
  }

  /** One entry per changed field at most: no more entries than fields. */
  lemma {:induction false} DiffCountBounded(original: ModelInstance, instance: ModelInstance, fields: seq<string>)
    ensures |FieldDiffs(original, instance, fields)| <= |fields|
  {
    if |fields| > 0 {
      DiffCountBounded(original, instance, fields[..|fields| - 1]);
    }
  }

  /** Stored values are never longer than the limit, and are exactly the first
      2000 characters of the full rendering, or all of it when shorter. */
  lemma ValuesAreTruncatedRenderings(original: ModelInstance, instance: ModelInstance, fields: seq<string>)
    ensures forall e :: e in FieldDiffs(original, instance, fields) ==>
      && |e.oldValue| <= MaxValueLength && |e.newValue| <= MaxValueLength
      && e.fieldName in original.attributes && e.fieldName in instance.attributes
      && e.oldValue <= Render(original.attributes[e.fieldName])
      && e.newValue <= Render(instance.attributes[e.fieldName])
      && e.oldValue == Render(original.attributes[e.fieldName])[..Cut(Render(original.attributes[e.fieldName]))]
      && e.newValue == Render(instance.attributes[e.fieldName])[..Cut(Render(instance.attributes[e.fieldName]))]
  {
    DiffEntriesDescribeChanges(original, instance, fields);
  }

  /** With no listed field changed, nothing is recorded. */
  lemma {:induction false} NoChangeNoDiffs(original: ModelInstance, instance: ModelInstance, fields: seq<string>)
    requires forall i :: 0 <= i < |fields| ==> !FieldChanged(original, instance, fields[i])
    ensures FieldDiffs(original, instance, fields) == []
  {
    if |fields| > 0 {
      NoChangeNoDiffs(original, instance, fields[..|fields| - 1]);
    }
  }

  lemma PyEqualsReflexive(v: FieldValue)
    ensures PyEquals(v, v)
  {
  }

  /** Saving a record unchanged records nothing. */
  lemma UnchangedSaveRecordsNothing(sender: string, instance: ModelInstance, stored: map<FieldValue, ModelInstance>, fields: seq<string>)
    requires instance.pk in stored && stored[instance.pk].attributes == instance.attributes
    ensures ChangeEntries(sender, instance, stored, fields) == []
  {
    var original := stored[instance.pk];
    forall i | 0 <= i < |fields|
      ensures !FieldChanged(original, instance, fields[i])
    {
      if fields[i] in instance.attributes {
        PyEqualsReflexive(instance.attributes[fields[i]]);
      }
    }
    NoChangeNoDiffs(original, instance, fields);
  }

  /** Other models, unsaved records and records not found leave no trace. */
  lemma OnlyStoredBookingsAreAudited(sender: string, instance: ModelInstance, stored: map<FieldValue, ModelInstance>, fields: seq<string>)
    ensures sender != AuditedSender ==> ChangeEntries(sender, instance, stored, fields) == []
    ensures !Truthy(instance.pk) ==> ChangeEntries(sender, instance, stored, fields) == []
    ensures instance.pk !in stored ==> ChangeEntries(sender, instance, stored, fields) == []
    ensures sender != AuditedSender ==> forall c :: CreateEntries(sender, instance, c) == []
  {
  }

  /** A new booking gets exactly one "created" entry, under the same key its
      later updates are recorded under. */
  lemma CreationRecordedOnce(instance: ModelInstance, stored: map<FieldValue, ModelInstance>, fields: seq<string>)
    ensures |CreateEntries(AuditedSender, instance, true)| == 1
    ensures CreateEntries(AuditedSender, instance, false) == []
    ensures CreateEntries(AuditedSender, instance, true)[0].action == "created"
    ensures forall e :: e in ChangeEntries(AuditedSender, instance, stored, fields) ==>
      e.action == "updated" && e.objectPk == CreateEntries(AuditedSender, instance, true)[0].objectPk
  {
    if Truthy(instance.pk) && instance.pk in stored {
      DiffEntriesDescribeChanges(stored[instance.pk], instance, fields);
    }
  }

  // ---------------------------------------------------------------------------
  // The hooks, appending to the log
  // ---------------------------------------------------------------------------

  class AuditLog {
    var entries: seq<AuditEntry>

    constructor()
      ensures entries == []
    {
      entries := [];
    }

    /** The pre-save hook: compares each field of the model with the stored
        row and appends an entry for each one that changed. */
    method CaptureChanges(sender: string, instance: ModelInstance, stored: map<FieldValue, ModelInstance>, fields: seq<string>)
      modifies this
      ensures entries == old(entries) + ChangeEntries(sender, instance, stored, fields)
    {
      if sender != AuditedSender {
        return;
      }
      if !Truthy(instance.pk) || instance.pk !in stored {
        return;
      }
      var original := stored[instance.pk];
      for i := 0 to |fields|
        invariant entries == old(entries) + FieldDiffs(original, instance, fields[..i])
      {
        var field := fields[i];
        assert fields[..i + 1][..i] == fields[..i];
        if field !in original.attributes || field !in instance.attributes {
          continue;
        }
        var oldValue, newValue := original.attributes[field], instance.attributes[field];
        if !PyEquals(oldValue, newValue) {
          entries := entries + [UpdateEntry(original, instance, field)];
        }
      }
      assert fields[..|fields|] == fields;
    }

    /** The post-save hook: a first save of a booking appends a "created" entry. */
    method CaptureCreate(sender: string, instance: ModelInstance, created: bool)
      modifies this
      ensures entries == old(entries) + CreateEntries(sender, instance, created)
    {
      if sender != AuditedSender {
        return;
      }
      if created {
        entries := entries + [CreationEntry(instance)];
      }
    }
  }
}

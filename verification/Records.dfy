/** Records as the serializer writes them: fields collected into an object. */
module Records {
  import opened Canonical

  datatype Field = Field(name: string, value: Value)

  function MapOf(fields: seq<Field>): map<string, Value> {
    if fields == [] then map[]
    else
      var last := fields[|fields|-1];
      MapOf(fields[..|fields|-1])[last.name := last.value]
  }

  function Record(fields: seq<Field>): Value {
    Obj(MapOf(fields))
  }

  ghost predicate DistinctNames(fields: seq<Field>) {
    forall i, j :: 0 <= i < j < |fields| ==> fields[i].name != fields[j].name
  }

  lemma {:induction false} FieldsAreEntries(fields: seq<Field>)
    requires DistinctNames(fields)
    ensures forall i :: 0 <= i < |fields| ==>
              fields[i].name in MapOf(fields) && MapOf(fields)[fields[i].name] == fields[i].value
    ensures forall k :: k in MapOf(fields) ==> exists i :: 0 <= i < |fields| && fields[i].name == k
  {
    if fields == [] {
    } else {
      var init := fields[..|fields|-1];
      FieldsAreEntries(init);
      forall i | 0 <= i < |fields|
        ensures fields[i].name in MapOf(fields) && MapOf(fields)[fields[i].name] == fields[i].value
      {
        if i < |init| {
          assert init[i] == fields[i];
        }
      }
      forall k | k in MapOf(fields) ensures exists i :: 0 <= i < |fields| && fields[i].name == k {
        if k in MapOf(init) {
          var i :| 0 <= i < |init| && init[i].name == k;
          assert fields[i].name == k;
        } else {
          assert fields[|init|].name == k;
        }
      }
    }
  }

  /** The order in which distinct entries are inserted leaves no trace in the output. */
  lemma RecordForgetsOrder(a: seq<Field>, b: seq<Field>)
    requires DistinctNames(a) && DistinctNames(b) && forall f :: f in a <==> f in b
    ensures Text(Record(a)) == Text(Record(b))
  {
    FieldsAreEntries(a);
    FieldsAreEntries(b);
    EntriesIncluded(a, b);
    EntriesIncluded(b, a);
    assert MapOf(a) == MapOf(b);
  }

  lemma EntriesIncluded(a: seq<Field>, b: seq<Field>)
    requires DistinctNames(a) && DistinctNames(b) && forall f :: f in a ==> f in b
    ensures forall k :: k in MapOf(a) ==> k in MapOf(b) && MapOf(a)[k] == MapOf(b)[k]
  {
    hide MapOf;
    FieldsAreEntries(a);
    FieldsAreEntries(b);
    forall k | k in MapOf(a) ensures k in MapOf(b) && MapOf(a)[k] == MapOf(b)[k] {
      var i :| 0 <= i < |a| && a[i].name == k;
      assert a[i] in b;
      var j :| 0 <= j < |b| && b[j] == a[i];
    }
  }

  lemma RecordIsFloatFree(fields: seq<Field>)
    requires DistinctNames(fields) && forall i :: 0 <= i < |fields| ==> FloatFree(fields[i].value)
    ensures FloatFree(Record(fields))
  {
    hide MapOf;
    FieldsAreEntries(fields);
    forall k | k in MapOf(fields) ensures FloatFree(MapOf(fields)[k]) {
      var i :| 0 <= i < |fields| && fields[i].name == k;
    }
  }
}

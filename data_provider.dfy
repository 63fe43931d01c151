// The provider-independent parts of the ADO.NET data provider: splitting an
// ID list, building command parameters, diffing two records, and bulk saves.
module DataProvider {
  import opened Wrappers
  import opened EntityTypes
  import opened Text
  import opened Lists

  // ---------------------------------------------------------------------------
  // ExtractIds
  // ---------------------------------------------------------------------------

  const OpenId: string := "<Id>"
  const CloseId: string := "</Id>"

  /**
   * String.Split over the separators "</Id>" and "<Id>": scanning left to
   * right, the text read so far (`current`) ends a piece at each separator.
   */
  function Pieces(s: string, current: string): (r: seq<string>)
    ensures |r| >= 1
    decreases |s|
  {
    if s == [] then [current]
    else if StartsWith(s, CloseId) then [current] + Pieces(s[|CloseId|..], "")
    else if StartsWith(s, OpenId) then [current] + Pieces(s[|OpenId|..], "")
    else Pieces(s[1..], current + [s[0]])
  }

  /** StringSplitOptions.RemoveEmptyEntries. */
  function NonEmpty(pieces: seq<string>): (r: seq<string>)
    ensures forall i :: 0 <= i < |r| ==> r[i] != ""
    ensures forall x :: x in r <==> x in pieces && x != ""
  {
    if pieces == [] then []
    else (if pieces[0] == "" then [] else [pieces[0]]) + NonEmpty(pieces[1..])
  }

  /** ExtractIds: the non-empty pieces of the text between the ID tags, in order. */
  function ExtractIds(idsXml: string): (r: seq<string>)
    ensures forall i :: 0 <= i < |r| ==> r[i] != ""
  {
    NonEmpty(Pieces(idsXml, ""))
  }

  /** The XML form of an ID list that ExtractIds reads back. */
  function IdsXml(ids: seq<string>): string
  {
    if ids == [] then "" else OpenId + ids[0] + CloseId + IdsXml(ids[1..])
  }

  /** Text without '<' never starts a separator, so it is read as part of the current piece. */
  lemma {:induction false} PassThrough(w: string, t: string, current: string)
    requires '<' !in w
    ensures Pieces(w + t, current) == Pieces(t, current + w)
    decreases |w|
  {
    if w == [] {
      assert w + t == t;
      assert current + w == current;
    } else {
      var s := w + t;
      assert s[0] == w[0] && w[0] in w;
      assert s[0] != CloseId[0] && s[0] != OpenId[0];
      assert s[1..] == w[1..] + t;
      PassThrough(w[1..], t, current + [w[0]]);
      assert current + [w[0]] + w[1..] == current + w;
    }
  }

  /** One tagged ID yields an empty piece, then the ID. */
  lemma TaggedPieces(id: string, tail: string)
    requires '<' !in id
    ensures Pieces(OpenId + id + CloseId + tail, "") == ["", id] + Pieces(tail, "")
  {
    var s := OpenId + id + CloseId + tail;
    assert s == OpenId + (id + (CloseId + tail));
    assert !StartsWith(s, CloseId) by { assert s[1] == 'I' && CloseId[1] == '/'; }
    assert StartsWith(s, OpenId);
    assert s[|OpenId|..] == id + (CloseId + tail);
    PassThrough(id, CloseId + tail, "");
    var t := CloseId + tail;
    assert StartsWith(t, CloseId);
    assert t[|CloseId|..] == tail;
    assert "" + id == id;
  }

  /** ExtractIds reads back every list of non-empty IDs free of '<' from its XML form. */
  lemma {:induction false} ExtractIdsRoundTrip(ids: seq<string>)
    requires forall i :: 0 <= i < |ids| ==> ids[i] != "" && '<' !in ids[i]
    ensures ExtractIds(IdsXml(ids)) == ids
  {
    if ids == [] {
      assert Pieces("", "") == [""];
      assert NonEmpty([""]) == [] by { assert [""][1..] == []; }
    } else {
      var id, rest := ids[0], ids[1..];
      var tail := Pieces(IdsXml(rest), "");
      TaggedPieces(id, IdsXml(rest));
      var p := ["", id] + tail;
      assert Pieces(IdsXml(ids), "") == p;
      ExtractIdsRoundTrip(rest);
      assert p[1..] == [id] + tail;
      assert ([id] + tail)[1..] == tail;
      assert NonEmpty(p) == NonEmpty(p[1..]);
      assert NonEmpty([id] + tail) == [id] + NonEmpty(tail);
    }
  }

  /** Text without separators is a single ID, unless it is empty. */
  lemma ExtractIdsPlain(s: string)
    requires '<' !in s
    ensures ExtractIds(s) == if s == "" then [] else [s]
  {
    PassThrough(s, "", "");
    assert s + "" == s;
    assert "" + s == s;
    assert Pieces(s, "") == [s];
    assert [s][1..] == [];
    assert NonEmpty([s]) == (if s == "" then [] else [s]) + NonEmpty([]);
  }

  // ---------------------------------------------------------------------------
  // Parameters
  // ---------------------------------------------------------------------------

  /** The value of a command parameter: a null reference, DBNull.Value, or a value. */
  datatype ParameterValue = NullReference | DbNull | Value(text: string)

  /** An IDataParameter: its name, its value and the column type it was given, if any. */
  datatype Parameter = Parameter(name: string, value: ParameterValue, dbType: Option<string>)

  /** The value to bind: null becomes DBNull.Value, anything else is kept. */
  function DbValue(value: Option<string>): (r: ParameterValue)
    ensures r != NullReference
    ensures value.None? <==> r == DbNull
    ensures value.Some? ==> r.text == value.value
  {
    match value
    case None => DbNull
    case Some(v) => Value(v)
  }

  /** CreateParameter(name, value[, columnType]): a space-free name, and null bound as DBNull. */
  function CreateParameter(parameterName: string, value: Option<string>, columnType: Option<string>): (r: Parameter)
    ensures ' ' !in r.name && r.dbType == columnType
    ensures forall c :: c != ' ' ==> (c in r.name <==> c in parameterName)
    ensures ' ' !in parameterName ==> r.name == parameterName
    ensures value.None? ==> r.value == DbNull
    ensures value.Some? ==> r.value == Value(value.value)
  {
    RemoveCharKeeps(parameterName, ' ');
    Parameter(RemoveChar(parameterName, ' '), DbValue(value), columnType)
  }

  /** GenerateParameter: a space-free name and the value as given (a null stays null). */
  function GenerateParameter(data: (string, Option<string>)): (r: Parameter)
    ensures ' ' !in r.name && r.dbType.None?
    ensures forall c :: c != ' ' ==> (c in r.name <==> c in data.0)
    ensures data.1.None? <==> r.value == NullReference
    ensures data.1.Some? ==> r.value == Value(data.1.value)
  {
    RemoveCharKeeps(data.0, ' ');
    Parameter(RemoveChar(data.0, ' '), if data.1.None? then NullReference else Value(data.1.value), None)
  }

  /** GenerateParameters: one parameter per entry, in the dictionary's order. */
  function GenerateParameters(parametersData: seq<(string, Option<string>)>): (r: seq<Parameter>)
    ensures |r| == |parametersData|
    ensures forall i :: 0 <= i < |r| ==> r[i] == GenerateParameter(parametersData[i])
  {
    if parametersData == [] then []
    else [GenerateParameter(parametersData[0])] + GenerateParameters(parametersData[1..])
  }

  // ---------------------------------------------------------------------------
  // GetUpdatedValues
  // ---------------------------------------------------------------------------

  /**
   * A record as GetUpdatedValues reads it: the string form of each data
   * property whose getter succeeds (a list of Guids in its comma-joined form);
   * a property missing from the map is one whose getter throws.
   */
  datatype Record = Record(values: map<string, string>)

  /** The change recorded for one property: the original text, and the updated text unless there is no updated record. */
  type Change = (string, Option<string>)

  /** Whether property p is recorded, and with which change. */
  function ChangeOf(p: string, original: Record, updated: Option<Record>): Option<Change>
  {
    if p !in original.values then None
    else if updated.Some? && p !in updated.value.values then None
    else
      var updatedValue := if updated.None? then None else Some(updated.value.values[p]);
      if updated.None? || Some(original.values[p]) != updatedValue then Some((original.values[p], updatedValue))
      else None
  }

  /** The dictionary built over the first data properties. */
  function UpdatedValues(properties: seq<string>, original: Record, updated: Option<Record>): map<string, Change>
  {
    if properties == [] then map[]
    else
      var before := UpdatedValues(properties[..|properties| - 1], original, updated);
      var p := properties[|properties| - 1];
      match ChangeOf(p, original, updated)
      case None => before
      case Some(c) => before[p := c]
  }

  /**
   * A property is in the result iff both getters succeed and either there is
   * no updated record or the two string forms differ; its entry is the pair of
   * the two forms.
   */
  lemma {:induction false} UpdatedValuesMeaning(properties: seq<string>, original: Record, updated: Option<Record>)
    ensures var r := UpdatedValues(properties, original, updated);
            forall p :: p in r <==> p in properties && ChangeOf(p, original, updated).Some?
    ensures var r := UpdatedValues(properties, original, updated);
            forall p :: p in r ==> r[p] == ChangeOf(p, original, updated).value
    ensures forall p :: ChangeOf(p, original, updated).Some? <==>
              p in original.values &&
              (updated.None? || (p in updated.value.values && original.values[p] != updated.value.values[p]))
    ensures forall p :: ChangeOf(p, original, updated).Some? ==>
              ChangeOf(p, original, updated).value.0 == original.values[p] &&
              ChangeOf(p, original, updated).value.1 == (if updated.None? then None else Some(updated.value.values[p]))
  {
    if properties != [] {
      UpdatedValuesMeaning(properties[..|properties| - 1], original, updated);
      assert forall p :: p in properties <==> p in properties[..|properties| - 1] || p == properties[|properties| - 1];
    }
  }

  /** With no updated record every readable property is reported, with no new value. */
  lemma UpdatedValuesWithoutUpdate(properties: seq<string>, original: Record)
    ensures var r := UpdatedValues(properties, original, None);
            forall p :: p in r <==> p in properties && p in original.values
  {
    UpdatedValuesMeaning(properties, original, None);
  }

  /** Comparing a record with itself reports nothing. */
  lemma UpdatedValuesOfSame(properties: seq<string>, original: Record)
    ensures UpdatedValues(properties, original, Some(original)) == map[]
  {
    UpdatedValuesMeaning(properties, original, Some(original));
    var r := UpdatedValues(properties, original, Some(original));
    assert forall p :: p !in r;
  }

  /**
   * GetUpdatedValues(original, updated) over the data properties of the
   * original's type (distinct names): null original raises
   * ArgumentNullException; otherwise the loop fills the dictionary.
   */
  method GetUpdatedValues(properties: seq<string>, original: Option<Record>, updated: Option<Record>)
    returns (result: Result<map<string, Change>>)
    requires Distinct(properties)
    ensures original.None? <==> result.Failure?
    ensures original.None? ==> result.error == Error(ArgumentNullError, "original")
    ensures original.Some? ==> result.value == UpdatedValues(properties, original.value, updated)
  {
    if original.None? {
      return Failure(Error(ArgumentNullError, "original"));
    }
    var source := original.value;
    var values: map<string, Change> := map[];
    var i := 0;
    while i < |properties|
      invariant 0 <= i <= |properties|
      invariant values == UpdatedValues(properties[..i], source, updated)
      invariant forall p :: p in values ==> p in properties[..i]
    {
      var p := properties[i];
      assert properties[..i + 1][..i] == properties[..i];
      if p !in source.values {
        i := i + 1;
        continue;
      }
      var originalValue := source.values[p];
      var updatedValue: Option<string> := None;
      if updated.Some? {
        if p !in updated.value.values {
          i := i + 1;
          continue;
        }
        updatedValue := Some(updated.value.values[p]);
      }
      if updated.None? || Some(originalValue) != updatedValue {
        values := values[p := (originalValue, updatedValue)];
      }
      i := i + 1;
    }
    assert properties[..|properties|] == properties;
    return Success(values);
  }

  // ---------------------------------------------------------------------------
  // Bulk saves
  // ---------------------------------------------------------------------------

  /** The SaveBehaviour a bulk operation saves with. */
  datatype SaveBehaviour = Default | BypassAll

  /** The data provider, as far as its bulk operations are concerned: the Database.Save calls it makes. */
  class BulkSaver {
    var saved: seq<(Entity, SaveBehaviour)>

    constructor ()
      ensures saved == []
    {
      saved := [];
    }

    /** BulkInsert: every entity is saved once, in array order, bypassing validation and events. */
    method BulkInsert(entities: seq<Entity>, batchSize: int)
      modifies this
      ensures |saved| == |old(saved)| + |entities|
      ensures saved[..|old(saved)|] == old(saved)
      ensures forall i :: 0 <= i < |entities| ==> saved[|old(saved)| + i] == (entities[i], BypassAll)
    {
      SaveAll(entities);
    }

    /** BulkUpdate: the same save loop as BulkInsert. */
    method BulkUpdate(entities: seq<Entity>, batchSize: int)
      modifies this
      ensures |saved| == |old(saved)| + |entities|
      ensures saved[..|old(saved)|] == old(saved)
      ensures forall i :: 0 <= i < |entities| ==> saved[|old(saved)| + i] == (entities[i], BypassAll)
    {
      SaveAll(entities);
    }

    method SaveAll(entities: seq<Entity>)
      modifies this
      ensures |saved| == |old(saved)| + |entities|
      ensures saved[..|old(saved)|] == old(saved)
      ensures forall i :: 0 <= i < |entities| ==> saved[|old(saved)| + i] == (entities[i], BypassAll)
    {
      var i := 0;
      while i < |entities|
        invariant 0 <= i <= |entities|
        invariant |saved| == |old(saved)| + i
        invariant saved[..|old(saved)|] == old(saved)
        invariant forall k :: 0 <= k < i ==> saved[|old(saved)| + k] == (entities[k], BypassAll)
      {
        saved := saved + [(entities[i], BypassAll)];
        i := i + 1;
      }
    }
  }
}

/**
 The conversion of stringified ids back into ObjectIds, under a unique key.

 An ObjectId is named by its 24 lower-case hex digits; parsing a hex string ignores its case.
 */
module ObjectIdReferences {
  import opened Options

  type RowId = nat

  /** What a reference field holds: a string, an ObjectId, or something else that is left alone. */
  datatype Ref = Text(text: string) | Oid(hex: string) | Other

  datatype Row = Row(ref: Ref, clientId: string)

  type Rows = map<RowId, Row>

  predicate IsHexDigit(c: char) {
    '0' <= c <= '9' || 'a' <= c <= 'f' || 'A' <= c <= 'F'
  }

  /** `/^[0-9a-f]{24}$/i` on a string value. */
  predicate Convertible(ref: Ref) {
    ref.Text? && |ref.text| == 24 && forall i | 0 <= i < 24 :: IsHexDigit(ref.text[i])
  }

  function LowerHex(text: string): string {
    seq(|text|, i requires 0 <= i < |text| =>
      if 'A' <= text[i] <= 'F' then (text[i] as int + 32) as char else text[i])
  }

  /** The value the conversion gives a field. */
  function ToObjectId(ref: Ref): Ref {
    if Convertible(ref) then Oid(LowerHex(ref.text)) else ref
  }

  /** The value of a hex digit, in either case. */
  function HexValue(c: char): int {
    if '0' <= c <= '9' then c as int - '0' as int
    else if 'a' <= c <= 'f' then c as int - 'a' as int + 10
    else c as int - 'A' as int + 10
  }

  /** The number a text of hex digits writes. */
  function HexNumber(text: string): int {
    if text == [] then 0 else HexNumber(text[..|text| - 1]) * 16 + HexValue(text[|text| - 1])
  }

  predicate AllHex(text: string) {
    forall i :: 0 <= i < |text| ==> IsHexDigit(text[i])
  }

  lemma {:induction false} LowerHexKeepsNumber(text: string)
    requires AllHex(text)
    ensures HexNumber(LowerHex(text)) == HexNumber(text) && |LowerHex(text)| == |text|
    ensures forall i :: 0 <= i < |text| ==> '0' <= LowerHex(text)[i] <= '9' || 'a' <= LowerHex(text)[i] <= 'f'
  {
    if text != [] {
      LowerHexKeepsNumber(text[..|text| - 1]);
      assert LowerHex(text)[..|text| - 1] == LowerHex(text[..|text| - 1]);
    }
  }

  lemma {:induction false} NumberTellsDigits(s: string, t: string)
    requires AllHex(s) && AllHex(t) && |s| == |t| && HexNumber(s) == HexNumber(t)
    ensures LowerHex(s) == LowerHex(t)
  {
    if s != [] {
      var n := |s| - 1;
      NumberTellsDigits(s[..n], t[..n]);
      assert LowerHex(s) == LowerHex(s[..n]) + LowerHex(s[n..]);
      assert LowerHex(t) == LowerHex(t[..n]) + LowerHex(t[n..]);
    }
  }

  /**
   A text of 24 hex digits becomes the ObjectId of the number it writes, in lower case; two texts become
   the same one exactly when they write the same number. Anything else stays as it was.
   */
  lemma ConversionKeepsTheNumber(ref: Ref, other: Ref)
    ensures Convertible(ref) ==>
      && ToObjectId(ref).Oid? && |ToObjectId(ref).hex| == 24 && HexNumber(ToObjectId(ref).hex) == HexNumber(ref.text)
      && forall i :: 0 <= i < 24 ==> '0' <= ToObjectId(ref).hex[i] <= '9' || 'a' <= ToObjectId(ref).hex[i] <= 'f'
    ensures !Convertible(ref) ==> ToObjectId(ref) == ref
    ensures Convertible(ref) && Convertible(other) ==>
      (ToObjectId(ref) == ToObjectId(other) <==> HexNumber(ref.text) == HexNumber(other.text))
    ensures Convertible(ref) <==>
      && ref.Text? && |ref.text| == 24
      && forall i :: 0 <= i < 24 ==> ref.text[i] in "0123456789abcdefABCDEF"
  {
    hide LowerHex, HexNumber;
    HexDigitsAre();
    if Convertible(ref) { LowerHexKeepsNumber(ref.text); }
    if Convertible(other) { LowerHexKeepsNumber(other.text); }
    if Convertible(ref) && Convertible(other) && HexNumber(ref.text) == HexNumber(other.text) {
      NumberTellsDigits(ref.text, other.text);
    }
  }

  lemma HexDigitsAre()
    ensures forall c: char :: IsHexDigit(c) <==> c in "0123456789abcdefABCDEF"
  {}

  function Key(row: Row): (Ref, string) {
    (row.ref, row.clientId)
  }

  /** The key as it reads once every id is an ObjectId. */
  function NormalKey(row: Row): (Ref, string) {
    (ToObjectId(row.ref), row.clientId)
  }

  function NormalKeys(rows: Rows): set<(Ref, string)> {
    set id | id in rows :: NormalKey(rows[id])
  }

  /** The unique index on (id, client). */
  ghost predicate UniqueKeys(rows: Rows) {
    forall i, j :: i in rows && j in rows && i != j ==> Key(rows[i]) != Key(rows[j])
  }

  predicate IsTwin(rows: Rows, id: RowId) {
    && id in rows
    && Convertible(rows[id].ref)
    && exists other | other in rows :: Key(rows[other]) == NormalKey(rows[id])
  }

  function Twins(rows: Rows): set<RowId> {
    set id | id in rows && IsTwin(rows, id)
  }

  function ConvertedRow(row: Row): Row {
    row.(ref := ToObjectId(row.ref))
  }

  function Converted(rows: Rows, done: set<RowId>): Rows {
    map id | id in rows :: if id in done then ConvertedRow(rows[id]) else rows[id]
  }

  /** Two string rows of one client read as the same id, and no ObjectId row stands for them. */
  ghost predicate CaseClash(rows: Rows) {
    exists i, j :: i in rows && j in rows && i != j
      && Convertible(rows[i].ref) && Convertible(rows[j].ref)
      && NormalKey(rows[i]) == NormalKey(rows[j])
      && !IsTwin(rows, i)
  }

  class Collection {
    var rows: Rows
    const unique: bool

    ghost predicate Valid()
      reads this
    {
      unique ==> UniqueKeys(rows)
    }

    constructor (rows: Rows, unique: bool)
      requires unique ==> UniqueKeys(rows)
      ensures Valid() && this.rows == rows && this.unique == unique
    {
      this.rows, this.unique := rows, unique;
    }

    method DeleteOne(id: RowId) returns (deleted: nat)
      requires Valid()
      modifies this
      ensures Valid() && rows == old(rows) - {id}
      ensures deleted == if id in old(rows) then 1 else 0
    {
      deleted := if id in rows then 1 else 0;
      rows := rows - {id};
    }

    /** Rewrites one row, unless the unique index refuses the new key. */
    method Convert(id: RowId) returns (ok: bool)
      requires Valid() && id in rows
      modifies this
      ensures Valid()
      ensures ok <==> !(unique && exists j | j in old(rows) :: j != id && Key(old(rows)[j]) == NormalKey(old(rows)[id]))
      ensures rows == if ok then old(rows)[id := ConvertedRow(old(rows)[id])] else old(rows)
    {
      ok := !(unique && exists j | j in rows :: j != id && Key(rows[j]) == NormalKey(rows[id]));
      if ok {
        rows := rows[id := ConvertedRow(rows[id])];
      }
    }
  }

  // ---------- Removing the string twins ----------

  lemma TwinsStay(rows: Rows, gone: set<RowId>, id: RowId)
    requires gone <= Twins(rows) && id !in gone
    ensures IsTwin(rows - gone, id) <==> IsTwin(rows, id)
  {
    if IsTwin(rows, id) {
      var other :| other in rows && Key(rows[other]) == NormalKey(rows[id]);
      assert rows[other].ref.Oid? && other !in Twins(rows);
      assert other in rows - gone;
    }
  }

  /** Deletes every string row whose ObjectId twin is already there, in any order. */
  method RemoveStringTwins(collection: Collection) returns (removed: nat)
    requires collection.Valid()
    modifies collection
    ensures collection.Valid()
    ensures collection.rows == old(collection.rows) - Twins(old(collection.rows))
    ensures removed == |Twins(old(collection.rows))|
  {
    ghost var rows := collection.rows;
    var cursor := set id | id in collection.rows && Convertible(collection.rows[id].ref);
    ghost var gone := {};
    removed := 0;
    while cursor != {}
      invariant collection.Valid() && collection.rows == rows - gone
      invariant gone <= Twins(rows) && removed == |gone| && gone !! cursor && cursor <= rows.Keys
      invariant forall id :: id in Twins(rows) ==> id in gone || id in cursor
    {
      var id :| id in cursor;
      cursor := cursor - {id};
      TwinsStay(rows, gone, id);
      if IsTwin(collection.rows, id) {
        var deleted := collection.DeleteOne(id);
        removed := removed + deleted;
        gone := gone + {id};
      }
    }
    assert gone == Twins(rows);
  }

  /** Every key is still there, and no other. */
  lemma TwinsTakeNoKey(rows: Rows)
    ensures NormalKeys(rows - Twins(rows)) == NormalKeys(rows)
  {
    var left := rows - Twins(rows);
    forall key | key in NormalKeys(rows) ensures key in NormalKeys(left) {
      var id :| id in rows && NormalKey(rows[id]) == key;
      if IsTwin(rows, id) {
        var other :| other in rows && Key(rows[other]) == NormalKey(rows[id]);
        assert rows[other].ref.Oid? && other in left && NormalKey(left[other]) == key;
      } else {
        assert id in left && NormalKey(left[id]) == key;
      }
    }
  }

  // ---------- Converting what is left ----------

  lemma ConversionClash(rows: Rows, done: set<RowId>, id: RowId)
    requires id in rows && id !in done && Convertible(rows[id].ref)
    requires !IsTwin(rows, id)
    ensures var now := Converted(rows, done);
      forall j | j in now :: j != id && Key(now[j]) == NormalKey(now[id]) <==>
        j != id && j in done && Convertible(rows[j].ref) && NormalKey(rows[j]) == NormalKey(rows[id])
  {
    var now := Converted(rows, done);
    forall j | j in now && Key(now[j]) == NormalKey(now[id]) ensures j in done && Convertible(rows[j].ref) {
      assert Key(rows[j]) != NormalKey(rows[id]);
    }
  }

  /** `updateMany` row by row: it stops where the unique index refuses a row. */
  method ConvertAll(collection: Collection) returns (result: Result<nat, RowId>)
    requires collection.Valid()
    requires collection.unique ==> Twins(collection.rows) == {}
    modifies collection
    ensures collection.Valid()
    ensures result.Ok? <==> !(collection.unique && CaseClash(old(collection.rows)))
    ensures result.Ok? ==> collection.rows == Converted(old(collection.rows), old(collection.rows).Keys)
    ensures NormalKeys(collection.rows) == NormalKeys(old(collection.rows))
  {
    ghost var rows := collection.rows;
    var cursor := set id | id in collection.rows && Convertible(collection.rows[id].ref);
    ghost var all, done := cursor, {};
    var converted := 0;
    assert Converted(rows, {}) == rows;
    while cursor != {}
      invariant collection.Valid() && collection.rows == Converted(rows, done)
      invariant done + cursor == all && done !! cursor
      invariant collection.unique ==> !ClashIn(rows, done)
    {
      var id :| id in cursor;
      cursor := cursor - {id};
      if collection.unique {
        assert id !in Twins(rows);
        ConversionClash(rows, done, id);
      }
      var ok := collection.Convert(id);
      if !ok {
        ConversionKeepsKeys(rows, done);
        return Err(id);
      }
      converted := converted + 1;
      ClashGrows(rows, done, id);
      ConvertedOneMore(rows, done, id);
      done := done + {id};
    }
    assert done == all;
    assert Converted(rows, all) == Converted(rows, rows.Keys);
    ConversionKeepsKeys(rows, all);
    if collection.unique {
      NoClashAtAll(rows, all);
    }
    result := Ok(converted);
  }

  lemma ConvertedOneMore(rows: Rows, done: set<RowId>, id: RowId)
    requires id in rows && id !in done && Convertible(rows[id].ref)
    ensures var now := Converted(rows, done);
      id in now && now[id := ConvertedRow(now[id])] == Converted(rows, done + {id})
  {}

  ghost predicate ClashIn(rows: Rows, done: set<RowId>) {
    exists i, j :: i in done && j in done && i != j && i in rows && j in rows
      && NormalKey(rows[i]) == NormalKey(rows[j])
  }

  lemma ClashGrows(rows: Rows, done: set<RowId>, id: RowId)
    requires id in rows
    ensures ClashIn(rows, done + {id}) ==>
      ClashIn(rows, done) || exists j :: j in done && j in rows && j != id && NormalKey(rows[j]) == NormalKey(rows[id])
  {}

  lemma NoClashAtAll(rows: Rows, all: set<RowId>)
    requires all == set id | id in rows && Convertible(rows[id].ref)
    requires !ClashIn(rows, all)
    ensures !CaseClash(rows)
  {}

  lemma ConversionKeepsKeys(rows: Rows, done: set<RowId>)
    ensures NormalKeys(Converted(rows, done)) == NormalKeys(rows)
  {
    var now := Converted(rows, done);
    forall id | id in rows ensures NormalKey(now[id]) == NormalKey(rows[id]) {}
    forall key | key in NormalKeys(rows) ensures key in NormalKeys(now) {
      var id :| id in rows && NormalKey(rows[id]) == key;
      assert id in now;
    }
  }

  // ---------- The migration of one reference ----------

  lemma ClashSurvivesTwins(rows: Rows)
    ensures CaseClash(rows - Twins(rows)) <==> CaseClash(rows)
    ensures Twins(rows - Twins(rows)) == {}
  {
    var left := rows - Twins(rows);
    forall id | id in left ensures !IsTwin(left, id) {
      TwinsStay(rows, Twins(rows), id);
    }
    if CaseClash(rows) {
      var i, j :| i in rows && j in rows && i != j && Convertible(rows[i].ref) && Convertible(rows[j].ref)
        && NormalKey(rows[i]) == NormalKey(rows[j]) && !IsTwin(rows, i);
      assert !IsTwin(rows, j);
      assert i in left && j in left;
    }
  }

  /**
   One reference, with or without a unique key. It succeeds exactly when no two string rows
   of a client differ only in letter case with no ObjectId row beside them. Either way the
   unique index holds and every key that was there is still there.
   */
  method ConvertReference(collection: Collection) returns (result: Result<(nat, nat), RowId>)
    requires collection.Valid()
    modifies collection
    ensures collection.Valid()
    ensures result.Err? <==> collection.unique && CaseClash(old(collection.rows))
    ensures NormalKeys(collection.rows) == NormalKeys(old(collection.rows))
    ensures result.Ok? ==> forall id | id in collection.rows :: !Convertible(collection.rows[id].ref)
    ensures result.Ok? ==>
      var left :=
        if collection.unique then old(collection.rows) - Twins(old(collection.rows)) else old(collection.rows);
      collection.rows == Converted(left, left.Keys)
  {
    ghost var rows := collection.rows;
    var removed := 0;
    if collection.unique {
      removed := RemoveStringTwins(collection);
      TwinsTakeNoKey(rows);
      ClashSurvivesTwins(rows);
    }
    var converted := ConvertAll(collection);
    result := if converted.Ok? then Ok((removed, converted.value)) else Err(converted.error);
  }
}

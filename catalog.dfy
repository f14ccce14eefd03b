/** What the movie, artist and genre handlers share: the query conditions they
    build, the numeric route-id check, comma-list cleaning, and a collection of
    documents keyed by a numeric id field (`movieid`, `artistid`, `genreid`). */
module Catalog {
  import opened Json
  import opened Text

  /** One constraint of a store query condition. Regular expressions are kept
      as their pattern and flags; matching is not modelled. */
  datatype Clause =
    | Is(value: JsValue)                              // field: value
    | Matches(pattern: string, flags: string)         // { $regex: new RegExp(pattern, flags) }
    | ElemMatchIn(values: seq<string>)                // { $elemMatch: { $in: values } }
    | Between(gte: Option<string>, lte: Option<string>) // { $gte?, $lte? }
    | AnyOf(alternatives: seq<map<string, Clause>>)   // $or

  /** A query condition: its top-level keys. */
  type Condition = map<string, Clause>

  /** `parseInt(req.params.id, 10)`, None standing for NaN. */
  function ParseId(param: string): (r: Option<int>)
    ensures r.None? <==> LeadingDigits(Unsigned(TrimStart(param)), 10) == 0
    ensures r.Some? && r.value < 0 ==> TrimStart(param) != [] && TrimStart(param)[0] == '-'
  {
    ParseInt(param, Radix10)
  }

  /** Any integer's numeral passes the id check as that integer. */
  lemma ParseIdOfNumeral(n: int)
    ensures ParseId(IntToString(n)) == Some(n)
  {
    ParseIntOfNumeral(n, Radix10);
  }

  /** A route id with no leading decimal digit (after blanks and a sign) fails
      the id check. */
  lemma ParseIdRejects(param: string)
    requires var u := Unsigned(TrimStart(param)); u == [] || !IsDecDigit(u[0])
    ensures ParseId(param).None?
  {
  }

  /** `!req.body || Object.keys(req.body).length === 0` */
  predicate BodyEmpty(body: Option<Doc>): (r: bool)
    ensures !r <==> body.Some? && exists k :: k in body.value
  {
    body.None? || body.value == map[]
  }

  /** `if (body.f && !Array.isArray(body.f)) body.f = []`: a truthy field that
      is not an array becomes the empty array; every other field is kept. */
  function EmptyIfNotArray(body: Doc, field: string): (r: Doc)
    ensures r.Keys == body.Keys
    ensures forall k :: k in body && k != field ==> r[k] == body[k]
    ensures field in r ==> r[field].Arr? || !Truthy(r[field])
    ensures field in r && (body[field].Arr? || !Truthy(body[field])) ==> r[field] == body[field]
    ensures Truthy(Get(body, field)) && !Get(body, field).Arr? ==> field in r && r[field] == Arr([])
  {
    if Truthy(Get(body, field)) && !Get(body, field).Arr? then body[field := Arr([])] else body
  }

  /** `.map(x => x.trim()).filter(Boolean)` */
  function TrimAll(pieces: seq<string>): (r: seq<string>)
    ensures |r| <= |pieces|
    ensures forall i :: 0 <= i < |r| ==> r[i] != "" && !IsSpace(r[i][0]) && !IsSpace(r[i][|r[i]| - 1])
    ensures (forall i :: 0 <= i < |pieces| ==> ',' !in pieces[i]) ==> forall i :: 0 <= i < |r| ==> ',' !in r[i]
  {
    if pieces == [] then []
    else
      var t := Trim(pieces[0]);
      var rest := TrimAll(pieces[1..]);
      TrimWithin(pieces[0]);
      if t == "" then rest else [t] + rest
  }

  lemma TrimWithin(s: string)
    ensures forall c :: c in Trim(s) ==> c in s
  {
    var k := LeadingSpaces(s);
    var t := s[k..];
    var r := Trim(s);
    assert r == t[..|t| - TrailingSpaces(t)];
    forall c | c in r
      ensures c in s
    {
      var i :| 0 <= i < |r| && r[i] == c;
      assert s[k + i] == c;
    }
  }

  /** `list.split(',').map(x => x.trim()).filter(Boolean)` (movie.controller.js,
      lines 21 and 28). */
  function CleanList(s: string): (r: seq<string>)
    ensures forall i :: 0 <= i < |r| ==> r[i] != "" && ',' !in r[i]
    ensures forall i :: 0 <= i < |r| ==> !IsSpace(r[i][0]) && !IsSpace(r[i][|r[i]| - 1])
  {
    TrimAll(Split(s, ','))
  }

  /** A comma-free text cleans to its trimmed self, or to nothing when that is
      empty; with CleanListStep this fixes the cleaned list of every text. */
  lemma CleanListOne(a: string)
    requires ',' !in a
    ensures CleanList(a) == (if Trim(a) == "" then [] else [Trim(a)])
  {
    SplitNoSeparator(a, ',');
    assert [a][1..] == [];
  }

  /** The cleaned list reads the pieces in order: the first piece, trimmed and
      kept when non-empty, then the cleaned rest. */
  lemma CleanListStep(a: string, rest: string)
    requires ',' !in a
    ensures CleanList(a + [','] + rest) == (if Trim(a) == "" then [] else [Trim(a)]) + CleanList(rest)
  {
    SplitAfterPiece(a, ',', rest);
    assert ([a] + Split(rest, ','))[1..] == Split(rest, ',');
  }

  lemma {:induction false} TrimAllKeeps(items: seq<string>)
    requires forall i :: 0 <= i < |items| ==> items[i] != "" && !IsSpace(items[i][0]) && !IsSpace(items[i][|items[i]| - 1])
    ensures TrimAll(items) == items
  {
    if items != [] {
      TrimPadded("", items[0], "");
      Unpadded(items[0]);
      TrimAllKeeps(items[1..]);
      assert [items[0]] + items[1..] == items;
    }
  }

  /** Cleaning the comma-joined list of non-empty, trimmed, comma-free items
      gives back the items. */
  lemma CleanListOfJoin(items: seq<string>)
    requires |items| >= 1
    requires forall i :: 0 <= i < |items| ==> items[i] != "" && ',' !in items[i]
    requires forall i :: 0 <= i < |items| ==> !IsSpace(items[i][0]) && !IsSpace(items[i][|items[i]| - 1])
    ensures CleanList(Join(items, ',')) == items
  {
    SplitJoin(items, ',');
    TrimAllKeeps(items);
  }

  /** Text without a single non-blank character cleans to the empty list. */
  lemma {:induction false} TrimAllBlank(pieces: seq<string>)
    requires forall i :: 0 <= i < |pieces| ==> AllSpace(pieces[i])
    ensures TrimAll(pieces) == []
  {
    if pieces != [] {
      LeadingSpacesAll(pieces[0]);
      TrimAllBlank(pieces[1..]);
    }
  }

  lemma CleanListBlank(s: string)
    requires forall i :: 0 <= i < |s| ==> s[i] == ',' || IsSpace(s[i])
    ensures CleanList(s) == []
  {
    var pieces := Split(s, ',');
    forall i | 0 <= i < |pieces|
      ensures AllSpace(pieces[i])
    {
      JoinContains(pieces, ',', i);
      forall j | 0 <= j < |pieces[i]|
        ensures IsSpace(pieces[i][j])
      {
        assert pieces[i][j] in pieces[i];
      }
    }
    TrimAllBlank(pieces);
  }

  lemma {:induction false} JoinContains(parts: seq<string>, sep: char, i: nat)
    requires |parts| >= 1 && i < |parts|
    ensures forall c :: c in parts[i] ==> c in Join(parts, sep)
  {
    if |parts| > 1 && i > 0 {
      JoinContains(parts[1..], sep, i - 1);
    }
  }

  /** The position of the first document whose key field holds the number `id`:
      the document `findOne({ <key>: id })` returns. */
  function FindByKey(docs: seq<Doc>, key: string, id: int): (r: Option<nat>)
    ensures r.Some? ==> r.value < |docs| && Get(docs[r.value], key) == Num(id)
    ensures r.Some? ==> forall j :: 0 <= j < r.value ==> Get(docs[j], key) != Num(id)
    ensures r.None? <==> forall i :: 0 <= i < |docs| ==> Get(docs[i], key) != Num(id)
  {
    FirstIndex(docs, (d: Doc) => Get(d, key) == Num(id))
  }

  /** A document appended after the others is found by its id when no earlier
      one holds that id. */
  lemma AppendedFound(docs: seq<Doc>, d: Doc, key: string, id: int)
    requires FindByKey(docs, key, id).None?
    requires Get(d, key) == Num(id)
    ensures FindByKey(docs + [d], key, id) == Some(|docs|)
  {
    var all := docs + [d];
    assert all[|docs|] == d;
    forall i | 0 <= i < |docs|
      ensures Get(all[i], key) != Num(id)
    {
      assert all[i] == docs[i];
    }
  }

  /** No two documents hold the same key value. */
  predicate KeyUnique(docs: seq<Doc>, key: string) {
    forall i, j :: 0 <= i < |docs| && 0 <= j < |docs| && i != j && key in docs[i] ==>
      Get(docs[i], key) != Get(docs[j], key)
  }

  /** After an update that leaves the key alone, the same id finds the same document. */
  lemma UpdateKeepsLookup(docs: seq<Doc>, key: string, id: int, update: Doc)
    requires FindByKey(docs, key, id).Some?
    requires key !in update || update[key] == Num(id)
    ensures var k := FindByKey(docs, key, id).value;
            FindByKey(docs[k := docs[k] + update], key, id) == Some(k)
  {
    var k := FindByKey(docs, key, id).value;
    var after := docs[k := docs[k] + update];
    assert Get(after[k], key) == Num(id);
    var r := FindByKey(after, key, id);
    assert r.Some? && r.value <= k;
  }

  /** With unique keys, a deleted id is no longer found. */
  lemma RemoveForgetsKey(docs: seq<Doc>, key: string, id: int)
    requires KeyUnique(docs, key)
    requires FindByKey(docs, key, id).Some?
    ensures FindByKey(RemoveAt(docs, FindByKey(docs, key, id).value), key, id).None?
  {
    var k := FindByKey(docs, key, id).value;
    var after := RemoveAt(docs, k);
    forall i | 0 <= i < |after|
      ensures Get(after[i], key) != Num(id)
    {
      var j := if i < k then i else i + 1;
      assert after[i] == docs[j];
      assert key in docs[k];
    }
  }

  /** A collection of documents in the store's natural order, looked up by the
      numeric field `key`. */
  class Collection {
    const key: string
    var docs: seq<Doc>

    constructor (key: string)
      ensures this.key == key && docs == []
    {
      this.key := key;
      docs := [];
    }

    /** `save()`: the document is appended. */
    method Save(d: Doc)
      modifies this
      ensures docs == old(docs) + [d]
    {
      docs := docs + [d];
    }

    /** `findOneAndUpdate({ <key>: id }, update, { new: true })`: the first
        match has the update's fields written over it and is returned; no other
        document changes. */
    method FindOneAndUpdate(id: int, update: Doc) returns (r: Option<Doc>)
      modifies this
      ensures FindByKey(old(docs), key, id).None? ==> r.None? && docs == old(docs)
      ensures FindByKey(old(docs), key, id).Some? ==>
                var k := FindByKey(old(docs), key, id).value;
                docs == old(docs)[k := old(docs)[k] + update] && r == Some(docs[k])
    {
      var found := FindByKey(docs, key, id);
      if found.None? {
        return None;
      }
      var k := found.value;
      docs := docs[k := docs[k] + update];
      r := Some(docs[k]);
    }

    /** `findOneAndRemove({ <key>: id })`: the first match is removed and returned. */
    method FindOneAndRemove(id: int) returns (r: Option<Doc>)
      modifies this
      ensures FindByKey(old(docs), key, id).None? ==> r.None? && docs == old(docs)
      ensures FindByKey(old(docs), key, id).Some? ==>
                var k := FindByKey(old(docs), key, id).value;
                docs == RemoveAt(old(docs), k) && r == Some(old(docs)[k])
    {
      var found := FindByKey(docs, key, id);
      if found.None? {
        return None;
      }
      r := Some(docs[found.value]);
      docs := RemoveAt(docs, found.value);
    }
  }
}

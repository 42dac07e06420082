/** Value rules the browser forms share: JavaScript truthiness of strings,
    `String.prototype.trim`, and records built by key assignment. */
module FormValues {
  import opened Document

  /** What a form hands to its `onSave` callback: the name field and the built entity. */
  datatype Saved<T> = Saved(name: string, entity: T)

  /** No entry is the empty string. */
  predicate NoEmptyEntries(s: seq<string>) {
    forall i :: 0 <= i < |s| ==> s[i] != ""
  }

  /** `list.filter(Boolean)` on strings: the empty string is the only falsy one. */
  function NonEmpty(s: seq<string>): (r: seq<string>)
    ensures |r| <= |s|
  {
    if s == [] then [] else (if s[0] == "" then [] else [s[0]]) + NonEmpty(s[1..])
  }

  /** The filter keeps exactly the non-empty elements. */
  lemma {:induction false} NonEmptyMembers(s: seq<string>)
    ensures NoEmptyEntries(NonEmpty(s))
    ensures forall x :: x in NonEmpty(s) <==> x in s && x != ""
  {
    if s != [] {
      NonEmptyMembers(s[1..]);
      assert s == [s[0]] + s[1..];
    }
  }

  /** A list with no empty element passes the filter unchanged. */
  lemma {:induction false} NonEmptyKeepsAll(s: seq<string>)
    requires NoEmptyEntries(s)
    ensures NonEmpty(s) == s
  {
    if s != [] {
      var tail := s[1..];
      assert s == [s[0]] + tail;
      assert forall i :: 0 <= i < |tail| ==> tail[i] == s[i + 1];
      NonEmptyKeepsAll(tail);
    }
  }

  /** Filtering keeps the order: it distributes over concatenation, so each
      element is kept or dropped where it stands. */
  lemma {:induction false} NonEmptyAppend(a: seq<string>, b: seq<string>)
    ensures NonEmpty(a + b) == NonEmpty(a) + NonEmpty(b)
  {
    if a == [] {
      assert a + b == b;
    } else {
      var head := if a[0] == "" then [] else [a[0]];
      var rest := NonEmpty(a[1..]);
      calc {
        NonEmpty(a + b);
        { assert (a + b)[0] == a[0] && (a + b)[1..] == a[1..] + b; }
        head + NonEmpty(a[1..] + b);
        { NonEmptyAppend(a[1..], b); }
        head + (rest + NonEmpty(b));
        (head + rest) + NonEmpty(b);
      }
    }
  }

  /** The characters `trim` removes: ECMAScript WhiteSpace and LineTerminator.
      Among ASCII characters these are tab, line feed, vertical tab, form
      feed, carriage return and space; NEL (U+0085) and the zero-width space
      (U+200B) are not among them. */
  predicate IsJsWhitespace(c: char): (b: bool)
    ensures (c as int) < 128 ==> (b <==> c in "\t\n\U{000B}\U{000C}\r ")
    ensures c == '\U{0085}' || c == '\U{200B}' ==> !b
  {
    || c == '\t' || c == '\n' || c == '\U{000B}' || c == '\U{000C}' || c == '\r' || c == ' '
    || c == '\U{00A0}' || c == '\U{1680}' || ('\U{2000}' <= c <= '\U{200A}') || c == '\U{2028}'
    || c == '\U{2029}' || c == '\U{202F}' || c == '\U{205F}' || c == '\U{3000}' || c == '\U{FEFF}'
  }

  predicate Blank(s: string) {
    forall i :: 0 <= i < |s| ==> IsJsWhitespace(s[i])
  }

  function TrimStart(s: string): (r: string)
    ensures |r| <= |s| && r == s[|s| - |r|..]
    ensures forall i :: 0 <= i < |s| - |r| ==> IsJsWhitespace(s[i])
    ensures r != [] ==> !IsJsWhitespace(r[0])
  {
    if s != [] && IsJsWhitespace(s[0]) then
      var r := TrimStart(s[1..]);
      assert forall i :: 0 < i < |s| - |r| ==> s[i] == s[1..][i - 1];
      r
    else s
  }

  function TrimEnd(s: string): (r: string)
    ensures |r| <= |s| && r == s[..|r|]
    ensures forall i :: |r| <= i < |s| ==> IsJsWhitespace(s[i])
    ensures r != [] ==> !IsJsWhitespace(r[|r| - 1])
  {
    if s != [] && IsJsWhitespace(s[|s| - 1]) then TrimEnd(s[..|s| - 1]) else s
  }

  /** `s.trim()`; it is falsy exactly when `s` is all whitespace. */
  function Trim(s: string): (r: string)
    ensures r == "" <==> Blank(s)
    ensures r != "" ==> !IsJsWhitespace(r[0]) && !IsJsWhitespace(r[|r| - 1])
  {
    var t := TrimStart(s);
    assert t != [] ==> t[0] == s[|s| - |t|];
    TrimEnd(t)
  }

  // ---------------------------------------------------------------------
  // Records built by key assignment

  lemma KeySetCons(d: Dict)
    requires d != []
    ensures KeySet(d) == {d[0].key} + KeySet(d[1..])
  {
    forall x | x in KeySet(d) ensures x in {d[0].key} + KeySet(d[1..]) {
      var i :| 0 <= i < |d| && d[i].key == x;
      if i > 0 { assert d[1..][i - 1].key == x; }
    }
  }

  /** The value a record holds for `k`. */
  function Lookup(d: Dict, k: string): (r: Option<string>)
    ensures r.Some? <==> k in KeySet(d)
  {
    if d == [] then None
    else
      KeySetCons(d);
      if d[0].key == k then Some(d[0].value) else Lookup(d[1..], k)
  }

  /** `obj[k] = v`: an existing key keeps its place and takes the new value;
      a new key goes last. */
  function Put(d: Dict, k: string, v: string): (r: Dict)
    ensures |r| == if k in KeySet(d) then |d| else |d| + 1
    ensures k !in KeySet(d) ==> r == d + [KeyValue(k, v)]
  {
    if d == [] then [KeyValue(k, v)]
    else
      KeySetCons(d);
      if d[0].key == k then [KeyValue(k, v)] + d[1..]
      else
        assert d == [d[0]] + d[1..];
        [d[0]] + Put(d[1..], k, v)
  }

  /** After `obj[k] = v`, `k` reads `v` and every other key reads as before. */
  lemma PutLookup(d: Dict, k: string, v: string)
    ensures Lookup(Put(d, k, v), k) == Some(v)
    ensures forall k' :: k' != k ==> Lookup(Put(d, k, v), k') == Lookup(d, k')
  {
    PutLookupSame(d, k, v);
    forall k' | k' != k
      ensures Lookup(Put(d, k, v), k') == Lookup(d, k')
    {
      PutLookupOther(d, k, v, k');
    }
  }

  lemma {:induction false} PutLookupSame(d: Dict, k: string, v: string)
    ensures Lookup(Put(d, k, v), k) == Some(v)
  {
    if d != [] && d[0].key != k {
      PutLookupSame(d[1..], k, v);
      var r := Put(d, k, v);
      assert r[0] == d[0] && r[1..] == Put(d[1..], k, v);
    }
  }

  lemma {:induction false} PutLookupOther(d: Dict, k: string, v: string, k': string)
    requires k' != k
    ensures Lookup(Put(d, k, v), k') == Lookup(d, k')
  {
    if d != [] && d[0].key != k {
      PutLookupOther(d[1..], k, v, k');
      var r := Put(d, k, v);
      assert r[0] == d[0] && r[1..] == Put(d[1..], k, v);
    }
  }

  /** Assignment adds `k` to the keys and nothing else. */
  lemma {:induction false} PutKeys(d: Dict, k: string, v: string)
    ensures KeySet(Put(d, k, v)) == KeySet(d) + {k}
  {
    var r := Put(d, k, v);
    KeySetCons(r);
    if d == [] {
      assert r[1..] == [];
    } else {
      KeySetCons(d);
      if d[0].key != k {
        PutKeys(d[1..], k, v);
        assert r[1..] == Put(d[1..], k, v);
      } else {
        assert r[1..] == d[1..];
      }
    }
  }

  /** A record with a first entry has distinct keys exactly when its rest
      does and the first key does not recur. */
  lemma DistinctCons(x: KeyValue, t: Dict)
    ensures DistinctKeys([x] + t) <==> DistinctKeys(t) && x.key !in KeySet(t)
  {
    var d := [x] + t;
    assert forall i :: 0 <= i < |t| ==> d[i + 1] == t[i];
    if DistinctKeys(d) {
      forall i, j | 0 <= i < j < |t| ensures t[i].key != t[j].key {
        assert d[i + 1].key != d[j + 1].key;
      }
      forall i | 0 <= i < |t| ensures t[i].key != x.key {
        assert d[0].key != d[i + 1].key;
      }
    }
  }

  /** Assignment never duplicates a key. */
  lemma {:induction false} PutDistinct(d: Dict, k: string, v: string)
    requires DistinctKeys(d)
    ensures DistinctKeys(Put(d, k, v))
  {
    if d == [] {
    } else {
      var t := d[1..];
      assert d == [d[0]] + t;
      DistinctCons(d[0], t);
      if d[0].key != k {
        PutDistinct(t, k, v);
        PutKeys(t, k, v);
        DistinctCons(d[0], Put(t, k, v));
      } else {
        DistinctCons(KeyValue(k, v), t);
      }
    }
  }

  /** The record a header list builds:
      `rows.forEach(({key, value}) => { if (key && value) obj[key] = value })`. */
  function HeaderRecord(rows: seq<KeyValue>): (r: Dict)
    ensures |r| <= |rows|
  {
    if rows == [] then []
    else
      var d := HeaderRecord(rows[..|rows| - 1]);
      var kv := rows[|rows| - 1];
      if kv.key != "" && kv.value != "" then Put(d, kv.key, kv.value) else d
  }

  /** A row that the builder assigns: both key and value non-empty. */
  predicate Assigned(kv: KeyValue) {
    kv.key != "" && kv.value != ""
  }

  /** A record keeps each key once. */
  lemma {:induction false} HeaderRecordDistinct(rows: seq<KeyValue>)
    ensures DistinctKeys(HeaderRecord(rows))
  {
    if rows != [] {
      var kv := rows[|rows| - 1];
      HeaderRecordDistinct(rows[..|rows| - 1]);
      PutDistinct(HeaderRecord(rows[..|rows| - 1]), kv.key, kv.value);
    }
  }

  /** The keys of the assigned rows. */
  function AssignedKeys(rows: seq<KeyValue>): set<string> {
    if rows == [] then {}
    else
      var last := rows[|rows| - 1];
      AssignedKeys(rows[..|rows| - 1]) + (if Assigned(last) then {last.key} else {})
  }

  /** A key is an assigned key exactly when some row with a non-empty key
      and value carries it. */
  lemma {:induction false} AssignedKeysMembers(rows: seq<KeyValue>, k: string)
    ensures k in AssignedKeys(rows) <==> exists i :: 0 <= i < |rows| && Assigned(rows[i]) && rows[i].key == k
  {
    if rows != [] {
      var n := |rows| - 1;
      var front := rows[..n];
      AssignedKeysMembers(front, k);
      if k in AssignedKeys(front) {
        var i :| 0 <= i < n && Assigned(front[i]) && front[i].key == k;
        assert rows[i] == front[i];
      }
      if exists i :: 0 <= i < |rows| && Assigned(rows[i]) && rows[i].key == k {
        var i :| 0 <= i < |rows| && Assigned(rows[i]) && rows[i].key == k;
        if i < n {
          assert front[i] == rows[i];
        }
      }
    }
  }

  /** The keys of the record are the keys of the assigned rows. */
  lemma {:induction false} HeaderRecordKeys(rows: seq<KeyValue>)
    ensures KeySet(HeaderRecord(rows)) == AssignedKeys(rows)
  {
    if rows != [] {
      var n := |rows| - 1;
      var front, last := rows[..n], rows[n];
      HeaderRecordKeys(front);
      if Assigned(last) {
        PutKeys(HeaderRecord(front), last.key, last.value);
      }
    }
  }

  /** A duplicated key takes the value of its last assigned row. */
  lemma {:induction false} HeaderRecordLaterWins(rows: seq<KeyValue>, i: nat)
    requires i < |rows| && Assigned(rows[i])
    requires forall j :: i < j < |rows| ==> rows[j].key != rows[i].key || !Assigned(rows[j])
    ensures Lookup(HeaderRecord(rows), rows[i].key) == Some(rows[i].value)
  {
    var n := |rows| - 1;
    var prev := HeaderRecord(rows[..n]);
    var k := rows[i].key;
    var last := rows[n];
    assert HeaderRecord(rows) == if Assigned(last) then Put(prev, last.key, last.value) else prev;
    if i == n {
      PutLookup(prev, last.key, last.value);
    } else {
      var front := rows[..n];
      assert front[i] == rows[i];
      assert forall j :: i < j < n ==> front[j].key != k || !Assigned(front[j]) by {
        assert forall j :: 0 <= j < n ==> front[j] == rows[j];
      }
      HeaderRecordLaterWins(front, i);
      if Assigned(last) {
        assert last.key != k;
        PutLookup(prev, last.key, last.value);
      }
    }
  }

  /** A key no assigned row carries is not in the record. */
  lemma HeaderRecordMissing(rows: seq<KeyValue>, k: string)
    requires forall j :: 0 <= j < |rows| ==> rows[j].key != k || !Assigned(rows[j])
    ensures Lookup(HeaderRecord(rows), k).None?
  {
    HeaderRecordKeys(rows);
    AssignedKeysMembers(rows, k);
  }

  /** Rows that all miss a key or a value build the empty record. */
  lemma {:induction false} HeaderRecordNone(rows: seq<KeyValue>)
    requires forall j :: 0 <= j < |rows| ==> !Assigned(rows[j])
    ensures HeaderRecord(rows) == []
  {
    if rows != [] {
      var n := |rows| - 1;
      assert forall j :: 0 <= j < n ==> rows[..n][j] == rows[j];
      HeaderRecordNone(rows[..n]);
    }
  }

  /** The entries of a record whose key and value are both non-empty, in order. */
  function AssignedEntries(d: Dict): (r: Dict)
    ensures |r| <= |d|
    ensures forall i :: 0 <= i < |r| ==> Assigned(r[i])
    ensures (forall i :: 0 <= i < |d| ==> Assigned(d[i])) ==> r == d
  {
    if d == [] then []
    else
      var n := |d| - 1;
      assert forall i :: 0 <= i < n ==> d[..n][i] == d[i];
      assert d[..n] + [d[n]] == d;
      AssignedEntries(d[..n]) + (if Assigned(d[n]) then [d[n]] else [])
  }

  /** Rebuilding a record from its own entries keeps the entries with a
      non-empty key and value, in their order; so a record whose keys and
      values are all non-empty comes back unchanged. */
  lemma {:induction false} HeaderRecordOfRecord(d: Dict)
    requires DistinctKeys(d)
    ensures HeaderRecord(d) == AssignedEntries(d)
  {
    if d != [] {
      var n := |d| - 1;
      var prev := HeaderRecord(d[..n]);
      assert DistinctKeys(d[..n]) by {
        assert forall i :: 0 <= i < n ==> d[..n][i] == d[i];
      }
      HeaderRecordOfRecord(d[..n]);
      assert prev == AssignedEntries(d[..n]);
      if Assigned(d[n]) {
        LastKeyFresh(d);
        assert HeaderRecord(d) == Put(prev, d[n].key, d[n].value) == prev + [d[n]];
      }
    }
  }

  /** In a record that keeps each key once, the last key is not among the
      keys the earlier entries build. */
  lemma LastKeyFresh(d: Dict)
    requires d != [] && DistinctKeys(d)
    ensures d[|d| - 1].key !in KeySet(HeaderRecord(d[..|d| - 1]))
  {
    var n := |d| - 1;
    HeaderRecordKeys(d[..n]);
    AssignedKeysMembers(d[..n], d[n].key);
    forall i | 0 <= i < n ensures d[..n][i].key != d[n].key {
      assert d[..n][i] == d[i];
    }
  }

  /** The loop of the form's submit handler that fills one header record. */
  method BuildHeaderRecord(rows: seq<KeyValue>) returns (d: Dict)
    ensures d == HeaderRecord(rows)
  {
    d := [];
    var i := 0;
    while i < |rows|
      invariant 0 <= i <= |rows|
      invariant d == HeaderRecord(rows[..i])
    {
      assert rows[..i + 1][..i] == rows[..i];
      if rows[i].key != "" && rows[i].value != "" {
        d := Put(d, rows[i].key, rows[i].value);
      }
      i := i + 1;
    }
    assert rows[..|rows|] == rows;
  }
}

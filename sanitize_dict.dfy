/**
  `sanitize_dict`: walks the entries of an event-parameter dictionary in
  insertion order and overwrites each value in place. A string becomes its
  ASCII-cleaned image, a list becomes a new list in which only the string
  elements are cleaned, and every other value is left alone. The dictionary
  object itself is returned.

  The dictionary is a class whose fields the walk updates: `keys` keeps the
  insertion order of the keys and `entries` their values; `Put` is the item
  assignment `d[k] = v`, which keeps an existing key in its place.
*/
module RecordSanitizer {
  import opened AsciiCleaner

  /** The values that appear in an event record. `Other` stands for any value
      that is neither a string, an integer nor a list (a dictionary, a tuple,
      ...); the walk never looks inside it. */
  datatype Value =
    | Str(s: string)
    | Int(n: int)
    | List(items: seq<Value>)
    | Other

  /** After sanitising, every string value and every string element of a list
      value holds only ASCII characters. */
  predicate Sanitized(v: Value) {
    match v
    case Str(s) => AllAscii(s)
    case List(items) => forall i :: 0 <= i < |items| ==> ItemSanitized(items[i])
    case _ => true
  }

  /** A list element is cleaned only when it is itself a string; a nested list
      is kept as it is. */
  predicate ItemSanitized(v: Value) {
    v.Str? ==> AllAscii(v.s)
  }

  /** `[clean_ascii(i) if isinstance(i, str) else i for i in v]`. */
  function CleanItems(items: seq<Value>): (r: seq<Value>)
    ensures |r| == |items|
    ensures forall i :: 0 <= i < |r| ==>
              if items[i].Str? then r[i] == Str(CleanAscii(items[i].s)) else r[i] == items[i]
  {
    if items == [] then []
    else
      var head := match items[0] case Str(s) => Str(CleanAscii(s)) case other => other;
      [head] + CleanItems(items[1..])
  }

  /** The new value the walk stores for `v`. */
  function SanitizeValue(v: Value): (r: Value)
    ensures Sanitized(r)
    ensures v.Str? <==> r.Str?
    ensures v.List? <==> r.List?
    ensures v.List? ==> |r.items| == |v.items|
    ensures !v.Str? && !v.List? ==> r == v
  {
    match v
    case Str(s) => Str(CleanAscii(s))
    case List(items) => List(CleanItems(items))
    case _ => v
  }

  /** A value that is already sanitised is stored back unchanged. */
  lemma SanitizeSanitized(v: Value)
    requires Sanitized(v)
    ensures SanitizeValue(v) == v
  {
    match v
    case Str(s) =>
      CleanAsciiOfAscii(s);
    case List(items) =>
      var r := CleanItems(items);
      forall i | 0 <= i < |items|
        ensures r[i] == items[i]
      {
        if items[i].Str? {
          assert ItemSanitized(items[i]);
          CleanAsciiOfAscii(items[i].s);
        }
      }
    case _ =>
  }

  /** Sanitising a value twice is the same as sanitising it once. */
  lemma SanitizeValueIdempotent(v: Value)
    ensures SanitizeValue(SanitizeValue(v)) == SanitizeValue(v)
  {
    SanitizeSanitized(SanitizeValue(v));
  }

  /** A dictionary with string keys kept in insertion order. */
  class Dict {
    var keys: seq<string>
    var entries: map<string, Value>

    ghost predicate Valid()
      reads this
    {
      && DistinctKeys(keys)
      && (forall k :: k in entries <==> k in keys)
    }

    /** `{}` */
    constructor ()
      ensures Valid() && keys == [] && entries == map[]
    {
      keys := [];
      entries := map[];
    }

    /** `d[k] = v`: replaces the value of an existing key where it stands, or
        appends a new key at the end. */
    method Put(k: string, v: Value)
      requires Valid()
      modifies this
      ensures Valid()
      ensures keys == if k in old(entries) then old(keys) else old(keys) + [k]
      ensures entries == old(entries)[k := v]
    {
      if k !in entries {
        keys := keys + [k];
      }
      entries := entries[k := v];
    }
  }

  /** The entries of a record after every value has been sanitised. */
  function SanitizeEntries(m: map<string, Value>): (r: map<string, Value>)
    ensures r.Keys == m.Keys
    ensures forall k :: k in r ==> Sanitized(r[k])
  {
    map k | k in m :: SanitizeValue(m[k])
  }

  ghost predicate DistinctKeys(keys: seq<string>) {
    forall i, j :: 0 <= i < j < |keys| ==> keys[i] != keys[j]
  }

  /** Halfway through the walk: the first `n` keys hold their sanitised value
      and the remaining ones still hold their original value. */
  ghost predicate WalkedUpTo(keys: seq<string>, orig: map<string, Value>, cur: map<string, Value>, n: nat) {
    && cur.Keys == orig.Keys
    && (forall j :: 0 <= j < |keys| ==> keys[j] in orig)
    && (forall j :: 0 <= j < n <= |keys| ==> cur[keys[j]] == SanitizeValue(orig[keys[j]]))
    && (forall j :: n <= j < |keys| ==> cur[keys[j]] == orig[keys[j]])
  }

  /** One step of the walk: overwrite the value of the next key. */
  lemma WalkStep(keys: seq<string>, orig: map<string, Value>, cur: map<string, Value>, n: nat)
    requires DistinctKeys(keys) && n < |keys|
    requires WalkedUpTo(keys, orig, cur, n)
    ensures WalkedUpTo(keys, orig, cur[keys[n] := SanitizeValue(cur[keys[n]])], n + 1)
  {
  }

  /** At the end of the walk, every key of the record has been visited. */
  lemma WalkDone(keys: seq<string>, orig: map<string, Value>, cur: map<string, Value>)
    requires forall k :: k in orig ==> k in keys
    requires WalkedUpTo(keys, orig, cur, |keys|)
    ensures cur == SanitizeEntries(orig)
  {
  }

  /** `sanitize_dict(d)`: overwrites every entry of `d` in place, in insertion
      order, and returns `d` itself. No key is added, removed or moved. */
  method SanitizeDict(d: Dict) returns (r: Dict)
    requires d.Valid()
    modifies d
    ensures r == d && d.Valid()
    ensures d.keys == old(d.keys)
    ensures d.entries == SanitizeEntries(old(d.entries))
  {
    var i := 0;
    while i < |d.keys|
      invariant 0 <= i <= |d.keys|
      invariant d.Valid()
      invariant d.keys == old(d.keys)
      invariant WalkedUpTo(d.keys, old(d.entries), d.entries, i)
    {
      var k := d.keys[i];
      var v := d.entries[k];
      WalkStep(d.keys, old(d.entries), d.entries, i);
      if v.Str? || v.List? {
        d.Put(k, SanitizeValue(v));
      } else {
        assert d.entries[k := SanitizeValue(v)] == d.entries;
      }
      i := i + 1;
    }
    WalkDone(d.keys, old(d.entries), d.entries);
    r := d;
  }

  /** Sanitising a whole record twice is the same as sanitising it once. */
  lemma SanitizeEntriesIdempotent(m: map<string, Value>)
    ensures SanitizeEntries(SanitizeEntries(m)) == SanitizeEntries(m)
  {
    var once := SanitizeEntries(m);
    forall k | k in once
      ensures SanitizeValue(once[k]) == once[k]
    {
      SanitizeSanitized(once[k]);
    }
  }

  /** A record whose strings are all ASCII is left as it is. */
  lemma SanitizeEntriesOfSanitized(m: map<string, Value>)
    requires forall k :: k in m ==> Sanitized(m[k])
    ensures SanitizeEntries(m) == m
  {
    forall k | k in m
      ensures SanitizeValue(m[k]) == m[k]
    {
      SanitizeSanitized(m[k]);
    }
  }
}

/** A small record with three of the keys of the script's event details, whose
    values are a string with a run of non-ASCII characters, an integer, and a
    list that mixes strings, an integer and a nested list. The characters are
    symbolic: any ASCII and non-ASCII characters will do. */
module SanitizeExample {
  import opened AsciiCleaner
  import opened RecordSanitizer

  /** Two ASCII characters around a run of two non-ASCII characters: the
      run becomes one space between them. */
  lemma TwoNonAsciiOneSpace(a: char, x: char, y: char, b: char)
    requires IsAscii(a) && IsAscii(b) && !IsAscii(x) && !IsAscii(y)
    ensures CleanAscii([a, x, y, b]) == [a, ' ', b]
  {
    CleanAsciiRun([x, y], [b]);
    CleanAsciiOfAscii([b]);
    CleanAsciiAppend([a], [x, y, b]);
    CleanAsciiOfAscii([a]);
    assert [a] + [x, y, b] == [a, x, y, b];
    assert [x, y] + [b] == [x, y, b];
  }

  /** The values the walk stores for the sample: the string is cleaned, the
      integer is untouched, and in the list only the string element is
      cleaned while the integer and the nested list keep their places. */
  lemma SampleValues(a: char, x: char, y: char, b: char, n: int)
    requires IsAscii(a) && IsAscii(b) && !IsAscii(x) && !IsAscii(y)
    ensures SanitizeValue(Str([a, x, y, b])) == Str([a, ' ', b])
    ensures SanitizeValue(Int(n)) == Int(n)
    ensures SanitizeValue(List([Str([a, x, y, b]), Int(n), List([Str([x])])]))
         == List([Str([a, ' ', b]), Int(n), List([Str([x])])])
  {
    TwoNonAsciiOneSpace(a, x, y, b);
    var items := CleanItems([Str([a, x, y, b]), Int(n), List([Str([x])])]);
    assert items == [Str([a, ' ', b]), Int(n), List([Str([x])])];
  }

  /** The dictionary display `{"event_city": s, "expected_participants": n,
      "key_requirements": l}`, built key by key. */
  method SampleRecord(s: Value, n: int, l: Value) returns (d: Dict)
    ensures fresh(d) && d.Valid()
    ensures d.keys == ["event_city", "expected_participants", "key_requirements"]
    ensures d.entries == map["event_city" := s, "expected_participants" := Int(n), "key_requirements" := l]
  {
    d := new Dict();
    d.Put("event_city", s);
    d.Put("expected_participants", Int(n));
    d.Put("key_requirements", l);
  }

  /** Sanitising a record in the shape of the script's event details, in
      place: the keys keep their order and each entry holds the value above. */
  method SanitizeSample(a: char, x: char, y: char, b: char, n: int) returns (d: Dict)
    requires IsAscii(a) && IsAscii(b) && !IsAscii(x) && !IsAscii(y)
    ensures d.Valid()
    ensures d.keys == ["event_city", "expected_participants", "key_requirements"]
    ensures d.entries == map[
              "event_city" := Str([a, ' ', b]),
              "expected_participants" := Int(n),
              "key_requirements" := List([Str([a, ' ', b]), Int(n), List([Str([x])])])]
  {
    d := SampleRecord(Str([a, x, y, b]), n, List([Str([a, x, y, b]), Int(n), List([Str([x])])]));
    d := SanitizeDict(d);
    SampleValues(a, x, y, b, n);
  }
}

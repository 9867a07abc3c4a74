/** The two key/value collections the client fills: the outgoing
    `NameValueCollection` and the caller's `Dictionary<string, string>` of
    extra parameters. Both are ordered lists of entries; a value may be null. */
module Collections {
  import opened Nullable

  type Entry = (string, Option<string>)

  /** No entry before position `i` is named `key`. */
  ghost predicate NoneBefore(entries: seq<Entry>, key: string, i: int)
  {
    forall j :: 0 <= j < i && j < |entries| ==> entries[j].0 != key
  }

  /** The value of the first entry named `key`, if there is one. */
  function Lookup(entries: seq<Entry>, key: string): (r: Option<Option<string>>)
    ensures r.None? <==> forall i :: 0 <= i < |entries| ==> entries[i].0 != key
    ensures r.Some? ==> exists i :: 0 <= i < |entries| && entries[i] == (key, r.value) && NoneBefore(entries, key, i)
  {
    if entries == [] then None
    else if entries[0].0 == key then Some(entries[0].1)
    else Lookup(entries[1..], key)
  }

  /** No key occurs twice. */
  ghost predicate DistinctKeys(entries: seq<Entry>)
  {
    forall i, j :: 0 <= i < j < |entries| ==> entries[i].0 != entries[j].0
  }

  /** `entries` without any entry named `key`. */
  function Without(entries: seq<Entry>, key: string): (r: seq<Entry>)
    ensures forall i :: 0 <= i < |r| ==> r[i].0 != key
    ensures forall other :: other != key ==> Lookup(r, other) == Lookup(entries, other)
    ensures (forall i :: 0 <= i < |entries| ==> entries[i].0 != key) ==> r == entries
  {
    if entries == [] then []
    else if entries[0].0 == key then Without(entries[1..], key)
    else [entries[0]] + Without(entries[1..], key)
  }

  /** The first entry named `key` gets `value`. */
  function Replace(entries: seq<Entry>, key: string, value: Option<string>): (r: seq<Entry>)
    requires Lookup(entries, key).Some?
    ensures Lookup(r, key) == Some(value)
    ensures forall other :: other != key ==> Lookup(r, other) == Lookup(entries, other)
  {
    if entries[0].0 == key then [(key, value)] + Without(entries[1..], key)
    else [entries[0]] + Replace(entries[1..], key, value)
  }

  /** When the first entry is the only one named `key`, replacing rewrites it
      and keeps the rest. */
  lemma ReplaceAtHead(entries: seq<Entry>, key: string, value: Option<string>)
    requires entries != [] && entries[0].0 == key
    requires forall i :: 1 <= i < |entries| ==> entries[i].0 != key
    ensures Replace(entries, key, value) == [(key, value)] + entries[1..]
  {
    var tail := entries[1..];
    assert forall i :: 0 <= i < |tail| ==> tail[i].0 != key by {
      forall i | 0 <= i < |tail| ensures tail[i].0 != key {
        assert tail[i] == entries[i + 1];
      }
    }
  }

  /** In a list without repeated keys, replacing rewrites one entry in place. */
  lemma {:induction false} ReplaceInPlace(entries: seq<Entry>, key: string, value: Option<string>)
    requires DistinctKeys(entries) && Lookup(entries, key).Some?
    ensures |Replace(entries, key, value)| == |entries|
    ensures forall i :: 0 <= i < |entries| ==>
      Replace(entries, key, value)[i] == if entries[i].0 == key then (key, value) else entries[i]
  {
    var tail := entries[1..];
    if entries[0].0 == key {
      ReplaceAtHead(entries, key, value);
    } else {
      assert DistinctKeys(tail) by {
        forall i, j | 0 <= i < j < |tail| ensures tail[i].0 != tail[j].0 {
          assert tail[i] == entries[i + 1] && tail[j] == entries[j + 1];
        }
      }
      ReplaceInPlace(tail, key, value);
      var r := Replace(entries, key, value);
      assert r == [entries[0]] + Replace(tail, key, value);
      forall i | 0 <= i < |entries|
        ensures r[i] == if entries[i].0 == key then (key, value) else entries[i]
      {
        if i > 0 {
          assert r[i] == Replace(tail, key, value)[i - 1] && entries[i] == tail[i - 1];
        }
      }
    }
  }

  /** Assignment through the indexer, `c[key] = value`: an existing key keeps
      its place and takes the new value, a new key goes at the end. */
  function Assign(entries: seq<Entry>, key: string, value: Option<string>): (r: seq<Entry>)
    ensures (key, value) in r
  {
    if Lookup(entries, key).Some? then Replace(entries, key, value) else entries + [(key, value)]
  }

  /** After an assignment `key` maps to `value` and every other key maps to
      what it did; a list without repeated keys stays so, and when the key was
      already there it keeps the same keys in the same places. */
  lemma AssignSpec(entries: seq<Entry>, key: string, value: Option<string>)
    ensures Lookup(Assign(entries, key, value), key) == Some(value)
    ensures forall other :: other != key ==> Lookup(Assign(entries, key, value), other) == Lookup(entries, other)
    ensures DistinctKeys(entries) ==> DistinctKeys(Assign(entries, key, value))
    ensures DistinctKeys(entries) && Lookup(entries, key).Some? ==>
      var r := Assign(entries, key, value);
      && |r| == |entries|
      && forall i :: 0 <= i < |entries| ==> r[i].0 == entries[i].0 && (entries[i].0 != key ==> r[i] == entries[i])
  {
    var r := Assign(entries, key, value);
    if Lookup(entries, key).None? {
      assert r == entries + [(key, value)];
      LookupAppend(entries, key, value);
      if DistinctKeys(entries) {
        forall i, j | 0 <= i < j < |r| ensures r[i].0 != r[j].0 {
          if j == |entries| {
            assert r[i] == entries[i];
          } else {
            assert r[i] == entries[i] && r[j] == entries[j];
          }
        }
      }
    } else {
      assert r == Replace(entries, key, value);
      if DistinctKeys(entries) {
        ReplaceInPlace(entries, key, value);
        forall i, j | 0 <= i < j < |r| ensures r[i].0 != r[j].0 {
          assert r[i].0 == entries[i].0 && r[j].0 == entries[j].0;
        }
      }
    }
  }

  /** Assigning a key the list does not hold appends it. */
  lemma AssignNewKey(entries: seq<Entry>, key: string, value: Option<string>)
    requires forall i :: 0 <= i < |entries| ==> entries[i].0 != key
    ensures Assign(entries, key, value) == entries + [(key, value)]
  {
    assert Lookup(entries, key).None?;
  }

  /** Looking up in a list with one entry appended at the end. */
  lemma {:induction false} LookupAppend(entries: seq<Entry>, key: string, value: Option<string>)
    ensures Lookup(entries + [(key, value)], key)
      == if Lookup(entries, key).Some? then Lookup(entries, key) else Some(value)
    ensures forall other :: other != key ==> Lookup(entries + [(key, value)], other) == Lookup(entries, other)
  {
    if entries != [] {
      assert (entries + [(key, value)])[1..] == entries[1..] + [(key, value)];
      LookupAppend(entries[1..], key, value);
    }
  }

  /** A `NameValueCollection` as the client uses it. */
  class NameValueCollection {
    var entries: seq<Entry>

    constructor ()
      ensures entries == []
    {
      entries := [];
    }

    /** `Add(name, value)` appends, even when `name` is already present. */
    method Add(name: string, value: Option<string>)
      modifies this
      ensures entries == old(entries) + [(name, value)]
    {
      entries := entries + [(name, value)];
    }

    /** `foreach (var kvp in extras) Add(kvp.Key, kvp.Value)`: appends every
        entry, in order. */
    method AddEach(extras: seq<Entry>)
      modifies this
      ensures entries == old(entries) + extras
    {
      var i := 0;
      while i < |extras|
        invariant 0 <= i <= |extras|
        invariant entries == old(entries) + extras[..i]
      {
        Add(extras[i].0, extras[i].1);
        i := i + 1;
      }
    }

    /** `this[name] = value` overwrites. */
    method Set(name: string, value: Option<string>)
      modifies this
      ensures entries == Assign(old(entries), name, value)
    {
      entries := Assign(entries, name, value);
    }
  }

  /** A `Dictionary<string, string>`, in insertion order. */
  class Dictionary {
    var entries: seq<Entry>

    ghost predicate Valid()
      reads this
    {
      DistinctKeys(entries)
    }

    constructor ()
      ensures Valid() && entries == []
    {
      entries := [];
    }

    /** `this[key] = value` overwrites or adds. */
    method Put(key: string, value: Option<string>)
      requires Valid()
      modifies this
      ensures Valid()
      ensures entries == Assign(old(entries), key, value)
    {
      AssignSpec(entries, key, value);
      entries := Assign(entries, key, value);
    }
  }

  /** The entries of a dictionary the caller may pass as `null`. */
  function EntriesOf(d: Dictionary?): seq<Entry>
    reads d
  {
    if d == null then [] else d.entries
  }
}

// The phone book sample service: records kept in a SortedList by the
// person's name, with insert-or-replace, delete and a lookup that falls back
// from the exact name to a case-insensitive part of a name.
//
// The SortedList is its entries in key order; keys are ordered ordinally,
// character code by character code.
module PhoneBook {
  import opened Wrappers
  import opened Strings

  datatype PhoneBookRecord = PhoneBookRecord(name: string, phone: string, creationDate: int)

  /** Ordinal string order: the first differing character decides, and a proper prefix comes first. */
  predicate Less(a: string, b: string)
    decreases |a|
  {
    if a == [] then b != []
    else b != [] && (a[0] < b[0] || (a[0] == b[0] && Less(a[1..], b[1..])))
  }

  lemma {:induction false} LessIrreflexive(a: string)
    ensures !Less(a, a)
    decreases |a|
  {
    if a != [] {
      LessIrreflexive(a[1..]);
    }
  }

  lemma {:induction false} LessTransitive(a: string, b: string, c: string)
    requires Less(a, b) && Less(b, c)
    ensures Less(a, c)
    decreases |a|
  {
    if a != [] && a[0] == b[0] && b[0] == c[0] {
      LessTransitive(a[1..], b[1..], c[1..]);
    }
  }

  lemma {:induction false} LessTotal(a: string, b: string)
    requires a != b
    ensures Less(a, b) || Less(b, a)
    decreases |a|
  {
    if a != [] && b != [] && a[0] == b[0] {
      LessTotal(a[1..], b[1..]);
    }
  }

  /** Entries in strictly increasing name order, so no name occurs twice. */
  predicate Sorted(entries: seq<PhoneBookRecord>) {
    forall i, j :: 0 <= i < j < |entries| ==> Less(entries[i].name, entries[j].name)
  }

  lemma SortedDistinct(entries: seq<PhoneBookRecord>, i: int, j: int)
    requires Sorted(entries) && 0 <= i < |entries| && 0 <= j < |entries| && i != j
    ensures entries[i].name != entries[j].name
  {
    if i < j {
      LessIrreflexive(entries[i].name);
    } else {
      LessIrreflexive(entries[j].name);
    }
  }

  /** The names in the book. */
  function Names(entries: seq<PhoneBookRecord>): set<string> {
    set i | 0 <= i < |entries| :: entries[i].name
  }

  /** The record filed under `name`, if any. */
  function Lookup(entries: seq<PhoneBookRecord>, name: string): (r: Option<PhoneBookRecord>)
    ensures r.Some? <==> name in Names(entries)
    ensures r.Some? ==> r.value in entries && r.value.name == name
    decreases |entries|
  {
    if entries == [] then None
    else if entries[0].name == name then Some(entries[0])
    else
      var r := Lookup(entries[1..], name);
      assert Names(entries) == {entries[0].name} + Names(entries[1..]) by {
        forall n | n in Names(entries) ensures n in {entries[0].name} + Names(entries[1..]) {
          var i :| 0 <= i < |entries| && entries[i].name == n;
          if i > 0 { assert entries[1..][i - 1] == entries[i]; }
        }
        forall n | n in Names(entries[1..]) ensures n in Names(entries) {
          var i :| 0 <= i < |entries[1..]| && entries[1..][i].name == n;
          assert entries[i + 1] == entries[1..][i];
        }
      }
      r
  }

  /** In a sorted book, the record under the name of entry `i` is entry `i`. */
  lemma {:induction false} LookupSorted(entries: seq<PhoneBookRecord>, i: int)
    requires Sorted(entries) && 0 <= i < |entries|
    ensures Lookup(entries, entries[i].name) == Some(entries[i])
    decreases |entries|
  {
    if i > 0 {
      SortedDistinct(entries, 0, i);
      assert Sorted(entries[1..]);
      assert entries[1..][i - 1] == entries[i];
      LookupSorted(entries[1..], i - 1);
    }
  }

  /** Query matching in FindPerson: the lower-cased name contains the lower-cased query. */
  predicate NameMatches(name: string, query: string) {
    Contains(ToLower(name), ToLower(query))
  }

  /** The first entry, in key order, that matches the query. */
  function FirstMatch(entries: seq<PhoneBookRecord>, query: string): (r: Option<PhoneBookRecord>)
    ensures r.None? <==> forall i :: 0 <= i < |entries| ==> !NameMatches(entries[i].name, query)
    ensures r.Some? ==> exists i :: 0 <= i < |entries| && entries[i] == r.value && NameMatches(r.value.name, query)
                                   && forall k :: 0 <= k < i ==> !NameMatches(entries[k].name, query)
    decreases |entries|
  {
    if entries == [] then None
    else if NameMatches(entries[0].name, query) then Some(entries[0])
    else
      var r := FirstMatch(entries[1..], query);
      assert forall i :: 1 <= i < |entries| ==> entries[i] == entries[1..][i - 1];
      r
  }

  class PhoneBookService {
    var entries: seq<PhoneBookRecord>

    ghost predicate Valid()
      reads this
    {
      Sorted(entries)
    }

    constructor()
      ensures Valid() && entries == []
    {
      entries := [];
    }

    /**
     * AddPerson: a null record is refused; otherwise the record is filed
     * under its name, replacing the one there, and every other name keeps
     * its record.
     */
    method AddPerson(recordToAdd: Option<PhoneBookRecord>) returns (r: Result<Unit, string>)
      requires Valid()
      modifies this
      ensures Valid()
      ensures recordToAdd.None? ==> r == Failure("recordToAdd") && entries == old(entries)
      ensures recordToAdd.Some? ==>
                && r == Success(Unit)
                && Names(entries) == Names(old(entries)) + {recordToAdd.value.name}
                && Lookup(entries, recordToAdd.value.name) == recordToAdd
                && forall n :: n != recordToAdd.value.name ==> Lookup(entries, n) == Lookup(old(entries), n)
    {
      if recordToAdd.None? {
        return Failure("recordToAdd");
      }
      var rec := recordToAdd.value;
      var i := 0;
      while i < |entries| && Less(entries[i].name, rec.name)
        invariant 0 <= i <= |entries|
        invariant forall k :: 0 <= k < i ==> Less(entries[k].name, rec.name)
      {
        i := i + 1;
      }
      ghost var before := entries;
      if i < |entries| && entries[i].name == rec.name {
        entries := entries[i := rec];
        ReplaceKeeps(before, i, rec);
      } else {
        forall k | i <= k < |before|
          ensures Less(rec.name, before[k].name)
        {
          LessTotal(rec.name, before[i].name);
          if k > i {
            LessTransitive(rec.name, before[i].name, before[k].name);
          }
        }
        entries := entries[..i] + [rec] + entries[i..];
        InsertKeeps(before, i, rec);
      }
      r := Success(Unit);
    }

    /** DeletePerson: reports whether the name was in the book; afterwards it is not, and nothing else changed. */
    method DeletePerson(name: string) returns (deleted: bool)
      requires Valid()
      modifies this
      ensures Valid()
      ensures deleted == (name in Names(old(entries)))
      ensures Names(entries) == Names(old(entries)) - {name}
      ensures forall n :: n != name ==> Lookup(entries, n) == Lookup(old(entries), n)
      ensures !deleted ==> entries == old(entries)
    {
      var i := 0;
      while i < |entries| && entries[i].name != name
        invariant 0 <= i <= |entries|
        invariant forall k :: 0 <= k < i ==> entries[k].name != name
      {
        i := i + 1;
      }
      if i == |entries| {
        return false;
      }
      ghost var before := entries;
      entries := entries[..i] + entries[i + 1..];
      RemoveKeeps(before, i);
      deleted := true;
    }

    /**
     * FindPerson: the record filed under exactly this name when there is one;
     * otherwise the first record, in name order, whose name contains the
     * query ignoring case; otherwise null.
     */
    method FindPerson(name: string) returns (found: Option<PhoneBookRecord>)
      requires Valid()
      ensures name in Names(entries) ==> found == Lookup(entries, name)
      ensures name !in Names(entries) ==> found == FirstMatch(entries, name)
    {
      var exact := Lookup(entries, name);
      if exact.Some? {
        return exact;
      }
      var i := 0;
      while i < |entries|
        invariant 0 <= i <= |entries|
        invariant FirstMatch(entries[i..], name) == FirstMatch(entries, name)
      {
        assert entries[i..][1..] == entries[i + 1..];
        if NameMatches(entries[i].name, name) {
          return Some(entries[i]);
        }
        i := i + 1;
      }
      found := None;
    }
  }

  /** Replacing the record at its own name's position. */
  lemma ReplaceKeeps(before: seq<PhoneBookRecord>, i: int, rec: PhoneBookRecord)
    requires Sorted(before) && 0 <= i < |before| && before[i].name == rec.name
    ensures var after := before[i := rec];
      && Sorted(after)
      && Names(after) == Names(before) + {rec.name}
      && Lookup(after, rec.name) == Some(rec)
      && forall n :: n != rec.name ==> Lookup(after, n) == Lookup(before, n)
  {
    var after := before[i := rec];
    assert Sorted(after);
    assert Names(after) == Names(before) by {
      assert forall k :: 0 <= k < |after| ==> after[k].name == before[k].name;
    }
    LookupSorted(after, i);
    forall n | n != rec.name
      ensures Lookup(after, n) == Lookup(before, n)
    {
      if n in Names(before) {
        var k :| 0 <= k < |before| && before[k].name == n;
        LookupSorted(before, k);
        LookupSorted(after, k);
      }
    }
  }

  /** The records before position `i` are kept, then `rec`, then the records from `i` on. */
  predicate IsInsertion(after: seq<PhoneBookRecord>, before: seq<PhoneBookRecord>, i: int, rec: PhoneBookRecord) {
    && 0 <= i <= |before| && |after| == |before| + 1 && after[i] == rec
    && (forall k :: 0 <= k < i ==> after[k] == before[k])
    && (forall k :: i < k < |after| ==> after[k] == before[k - 1])
  }

  /** Inserting a record between the smaller and the larger names. */
  lemma InsertKeeps(before: seq<PhoneBookRecord>, i: int, rec: PhoneBookRecord)
    requires Sorted(before) && 0 <= i <= |before|
    requires forall k :: 0 <= k < i ==> Less(before[k].name, rec.name)
    requires forall k :: i <= k < |before| ==> Less(rec.name, before[k].name)
    ensures var after := before[..i] + [rec] + before[i..];
      && Sorted(after)
      && Names(after) == Names(before) + {rec.name}
      && Lookup(after, rec.name) == Some(rec)
      && forall n :: n != rec.name ==> Lookup(after, n) == Lookup(before, n)
  {
    var after := before[..i] + [rec] + before[i..];
    SpliceIsInsertion(before, i, rec);
    InsertSorted(after, before, i, rec);
    InsertNames(after, before, i, rec);
    InsertLookup(after, before, i, rec);
  }

  lemma SpliceIsInsertion(before: seq<PhoneBookRecord>, i: int, rec: PhoneBookRecord)
    requires 0 <= i <= |before|
    ensures IsInsertion(before[..i] + [rec] + before[i..], before, i, rec)
  {
    var after := before[..i] + [rec] + before[i..];
    assert forall k :: 0 <= k < i ==> after[k] == before[..i][k];
    assert forall k :: i < k < |after| ==> after[k] == before[i..][k - i - 1];
  }

  lemma InsertSorted(after: seq<PhoneBookRecord>, before: seq<PhoneBookRecord>, i: int, rec: PhoneBookRecord)
    requires IsInsertion(after, before, i, rec) && Sorted(before)
    requires forall k :: 0 <= k < i ==> Less(before[k].name, rec.name)
    requires forall k :: i <= k < |before| ==> Less(rec.name, before[k].name)
    ensures Sorted(after)
  {
    forall a, b | 0 <= a < b < |after|
      ensures Less(after[a].name, after[b].name)
    {
      if a < i && b > i {
        LessTransitive(after[a].name, rec.name, after[b].name);
      }
    }
  }

  lemma InsertNames(after: seq<PhoneBookRecord>, before: seq<PhoneBookRecord>, i: int, rec: PhoneBookRecord)
    requires IsInsertion(after, before, i, rec)
    ensures Names(after) == Names(before) + {rec.name}
  {
    forall n | n in Names(after) ensures n in Names(before) + {rec.name} {
      var k :| 0 <= k < |after| && after[k].name == n;
      if k < i { assert before[k].name == n; } else if k > i { assert before[k - 1].name == n; }
    }
    forall n | n in Names(before) ensures n in Names(after) {
      var k :| 0 <= k < |before| && before[k].name == n;
      if k < i { assert after[k].name == n; } else { assert after[k + 1].name == n; }
    }
  }

  lemma InsertLookup(after: seq<PhoneBookRecord>, before: seq<PhoneBookRecord>, i: int, rec: PhoneBookRecord)
    requires IsInsertion(after, before, i, rec) && Sorted(before) && Sorted(after)
    requires Names(after) == Names(before) + {rec.name}
    ensures Lookup(after, rec.name) == Some(rec)
    ensures forall n :: n != rec.name ==> Lookup(after, n) == Lookup(before, n)
  {
    LookupSorted(after, i);
    forall n | n != rec.name
      ensures Lookup(after, n) == Lookup(before, n)
    {
      if n in Names(before) {
        var k :| 0 <= k < |before| && before[k].name == n;
        LookupSorted(before, k);
        InsertLookupAt(after, before, i, rec, k);
      } else {
        assert n !in Names(after);
      }
    }
  }

  /** After the insertion, each old record is still the one filed under its name. */
  lemma InsertLookupAt(after: seq<PhoneBookRecord>, before: seq<PhoneBookRecord>, i: int, rec: PhoneBookRecord, k: int)
    requires IsInsertion(after, before, i, rec) && Sorted(after) && 0 <= k < |before|
    ensures Lookup(after, before[k].name) == Some(before[k])
  {
    if k < i {
      assert after[k] == before[k];
      LookupSorted(after, k);
    } else {
      assert i < k + 1 < |after| && after[k + 1] == before[(k + 1) - 1];
      LookupSorted(after, k + 1);
    }
  }

  /** The records before position `i` are kept and the ones after it move down by one. */
  predicate IsRemoval(after: seq<PhoneBookRecord>, before: seq<PhoneBookRecord>, i: int) {
    && 0 <= i < |before| && |after| == |before| - 1
    && (forall k :: 0 <= k < i ==> after[k] == before[k])
    && (forall k :: i <= k < |after| ==> after[k] == before[k + 1])
  }

  /** Removing the record at position `i`. */
  lemma RemoveKeeps(before: seq<PhoneBookRecord>, i: int)
    requires Sorted(before) && 0 <= i < |before|
    ensures var after := before[..i] + before[i + 1..];
      && Sorted(after)
      && Names(after) == Names(before) - {before[i].name}
      && forall n :: n != before[i].name ==> Lookup(after, n) == Lookup(before, n)
  {
    var after := before[..i] + before[i + 1..];
    assert IsRemoval(after, before, i);
    assert Sorted(after);
    RemoveNames(after, before, i);
    RemoveLookup(after, before, i);
  }

  lemma RemoveNames(after: seq<PhoneBookRecord>, before: seq<PhoneBookRecord>, i: int)
    requires IsRemoval(after, before, i) && Sorted(before)
    ensures Names(after) == Names(before) - {before[i].name}
  {
    var name := before[i].name;
    forall n | n in Names(after) ensures n in Names(before) - {name} {
      var k :| 0 <= k < |after| && after[k].name == n;
      if k < i {
        SortedDistinct(before, k, i);
        assert before[k].name == n;
      } else {
        SortedDistinct(before, k + 1, i);
        assert before[k + 1].name == n;
      }
    }
    forall n | n in Names(before) - {name} ensures n in Names(after) {
      var k :| 0 <= k < |before| && before[k].name == n;
      if k < i { assert after[k].name == n; } else { assert after[k - 1].name == n; }
    }
  }

  lemma RemoveLookup(after: seq<PhoneBookRecord>, before: seq<PhoneBookRecord>, i: int)
    requires IsRemoval(after, before, i) && Sorted(before) && Sorted(after)
    requires Names(after) == Names(before) - {before[i].name}
    ensures forall n :: n != before[i].name ==> Lookup(after, n) == Lookup(before, n)
  {
    forall n | n != before[i].name
      ensures Lookup(after, n) == Lookup(before, n)
    {
      if n in Names(before) {
        var k :| 0 <= k < |before| && before[k].name == n;
        LookupSorted(before, k);
        RemoveLookupAt(after, before, i, k);
      } else {
        assert n !in Names(after);
      }
    }
  }

  /** After the removal, each other old record is still the one filed under its name. */
  lemma RemoveLookupAt(after: seq<PhoneBookRecord>, before: seq<PhoneBookRecord>, i: int, k: int)
    requires IsRemoval(after, before, i) && Sorted(after) && 0 <= k < |before| && k != i
    ensures Lookup(after, before[k].name) == Some(before[k])
  {
    if k < i {
      assert after[k] == before[k];
      LookupSorted(after, k);
    } else {
      assert after[k - 1] == before[k];
      LookupSorted(after, k - 1);
    }
  }
}

/**
 * The subscriber list: chat ids kept in a state file as a sorted JSON list.
 * Every operation reads the file afresh; adding and removing write it back
 * only when the set changes.
 */
module Subscribers {

  /** A Telegram chat id: a signed 64-bit integer (negative for groups). */
  type ChatId = x: int | -0x8000_0000_0000_0000 <= x < 0x8000_0000_0000_0000

  /** The state file: missing, unreadable (bad JSON, a value that is not a
      list of ids), or holding a list of ids. A file without the
      `subscribers` key reads as an empty list. */
  datatype StateFile = Absent | Garbled | Saved(ids: seq<ChatId>)

  /** `load_subscribers`: the ids in the file; none for a missing or
      unreadable file. */
  function Load(f: StateFile): (s: set<ChatId>)
    ensures f.Saved? ==> forall id :: id in s <==> id in f.ids
    ensures !f.Saved? ==> s == {}
  {
    match f
    case Saved(ids) => set id | id in ids
    case _ => {}
  }

  predicate StrictlySorted(r: seq<ChatId>) {
    forall i, j :: 0 <= i < j < |r| ==> r[i] < r[j]
  }

  /** `r` is `sorted(s)`: the members of `s`, each once, in increasing order. */
  ghost predicate SortedListOf(r: seq<ChatId>, s: set<ChatId>) {
    StrictlySorted(r) && forall id :: id in r <==> id in s
  }

  /** Every non-empty set of ids has a least member. */
  lemma {:induction false} Minimum(s: set<ChatId>) returns (m: ChatId)
    requires s != {}
    ensures m in s && forall x :: x in s ==> m <= x
    decreases s
  {
    var y :| y in s;
    if s == {y} {
      m := y;
    } else {
      var m' := Minimum(s - {y});
      m := if y < m' then y else m';
      forall x | x in s
        ensures m <= x
      {
        if x != y {
          assert x in s - {y};
        }
      }
    }
  }

  /** `sorted(s)`: the ids in increasing order, built by taking the least
      remaining id until none is left. */
  method SortedList(s: set<ChatId>) returns (r: seq<ChatId>)
    ensures SortedListOf(r, s)
  {
    var rest := s;
    r := [];
    while rest != {}
      invariant rest <= s
      invariant StrictlySorted(r)
      invariant forall id :: id in r <==> id in s && id !in rest
      invariant forall i, y :: 0 <= i < |r| && y in rest ==> r[i] < y
      decreases rest
    {
      // `Minimum` is a lemma, so its result is ghost: it shows the least
      // id exists, and the `:|` picks that same id for the compiled list.
      ghost var least := Minimum(rest);
      var m :| m in rest && forall x :: x in rest ==> m <= x;
      r := r + [m];
      rest := rest - {m};
    }
  }

  lemma EmptyList(r: seq<ChatId>, s: set<ChatId>)
    requires SortedListOf(r, s)
    ensures r == [] <==> s == {}
  {
    if r != [] {
      assert r[0] in s;
    }
  }

  /** The sorted list of a set is unique. */
  lemma {:induction false} SortedListUnique(r1: seq<ChatId>, r2: seq<ChatId>, s: set<ChatId>)
    requires SortedListOf(r1, s) && SortedListOf(r2, s)
    ensures r1 == r2
    decreases |r1|
  {
    EmptyList(r1, s);
    EmptyList(r2, s);
    if r1 != [] && r2 != [] {
      assert r1[0] in r2 && r2[0] in r1;
      assert r1[0] == r2[0] by {
        var i :| 0 <= i < |r2| && r2[i] == r1[0];
        var j :| 0 <= j < |r1| && r1[j] == r2[0];
        assert r2[0] <= r1[0] && r1[0] <= r2[0];
      }
      var m := r1[0];
      forall id ensures id in r1[1..] <==> id in s - {m} {
        if id in r1[1..] {
          var k :| 1 <= k < |r1| && r1[k] == id;
          assert r1[0] < r1[k];
        }
      }
      forall id ensures id in r2[1..] <==> id in s - {m} {
        if id in r2[1..] {
          var k :| 1 <= k < |r2| && r2[k] == id;
          assert r2[0] < r2[k];
        }
      }
      SortedListUnique(r1[1..], r2[1..], s - {m});
    }
  }

  /** Loading what was saved gives back the set. */
  lemma SaveLoadRoundTrip(r: seq<ChatId>, s: set<ChatId>)
    requires SortedListOf(r, s)
    ensures Load(Saved(r)) == s
  {
  }

  /** The subscriber state file and the operations over it. */
  class SubscriberStore {
    var file: StateFile

    constructor (file: StateFile)
      ensures this.file == file
    {
      this.file := file;
    }

    /** `save_subscribers`: the set, written as its sorted list. */
    method Save(s: set<ChatId>)
      modifies this
      ensures file.Saved? && SortedListOf(file.ids, s)
      ensures Load(file) == s
    {
      var r := SortedList(s);
      file := Saved(r);
    }

    /** `add_subscriber`: true exactly when the id was new; the file is
        rewritten only then, and the id is subscribed afterwards. */
    method Add(id: ChatId) returns (added: bool)
      modifies this
      ensures added <==> id !in Load(old(file))
      ensures Load(file) == Load(old(file)) + {id}
      ensures !added ==> file == old(file)
      ensures added ==> file.Saved? && StrictlySorted(file.ids)
    {
      var subscribers := Load(file);
      if id in subscribers {
        return false;
      }
      Save(subscribers + {id});
      return true;
    }

    /** `remove_subscriber`: true exactly when the id was subscribed; the
        file is rewritten only then, and the id is absent afterwards. */
    method Remove(id: ChatId) returns (removed: bool)
      modifies this
      ensures removed <==> id in Load(old(file))
      ensures Load(file) == Load(old(file)) - {id}
      ensures !removed ==> file == old(file)
      ensures removed ==> file.Saved? && StrictlySorted(file.ids)
    {
      var subscribers := Load(file);
      if id !in subscribers {
        return false;
      }
      Save(subscribers - {id});
      return true;
    }

    /** `is_subscribed`. */
    method IsSubscribed(id: ChatId) returns (b: bool)
      ensures b <==> id in Load(file)
    {
      b := id in Load(file);
    }

    /** `get_subscriber_count`. */
    method Count() returns (n: nat)
      ensures n == |Load(file)|
    {
      n := |Load(file)|;
    }
  }
}

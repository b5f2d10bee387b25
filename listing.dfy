/** What `list_keys` produces: every entry's key followed by its value, with
    no delimiter, in the order a `HashMap` iteration happens to visit them.
    The order is unspecified, so everything here is stated for an arbitrary
    enumeration of the keys. */
module Listing {

  /** `String::insert_str(idx, t)`: `t` spliced into `s` at byte `idx`. */
  function InsertStr(s: string, idx: nat, t: string): (r: string)
    requires idx <= |s|
    ensures |r| == |s| + |t|
    ensures r[..idx] == s[..idx] && r[idx..idx + |t|] == t && r[idx + |t|..] == s[idx..]
  {
    s[..idx] + t + s[idx..]
  }

  /** Inserting at `s.len()`, as the listing loop does, is appending. */
  lemma InsertStrAtEnd(s: string, t: string)
    ensures InsertStr(s, |s|, t) == s + t
  {
  }

  predicate NoDuplicates(order: seq<string>)
  {
    forall i, j | 0 <= i < j < |order| :: order[i] != order[j]
  }

  /** `order` visits every key of `keys` exactly once and nothing else. */
  ghost predicate IsEnumeration(order: seq<string>, keys: set<string>)
  {
    NoDuplicates(order) && forall k :: k in order <==> k in keys
  }

  /** The listing body for the entries of `db` visited in `order`. */
  function Render(db: map<string, string>, order: seq<string>): string
    requires forall k | k in order :: k in db
  {
    if order == [] then "" else order[0] + db[order[0]] + Render(db, order[1..])
  }

  /** Number of characters one entry contributes to the listing. */
  function EntrySize(db: map<string, string>, k: string): nat
    requires k in db
  {
    |k| + |db[k]|
  }

  /** Sum of `EntrySize` over the keys `keys`, independent of any order. */
  ghost function SizeOf(db: map<string, string>, keys: set<string>): nat
    requires keys <= db.Keys
    decreases keys
  {
    if keys == {} then 0
    else
      var k :| k in keys;
      EntrySize(db, k) + SizeOf(db, keys - {k})
  }

  /** The total size of every entry of the store. */
  ghost function ListingSize(db: map<string, string>): nat
  {
    SizeOf(db, db.Keys)
  }

  /** `SizeOf` does not depend on which key it picks first. */
  lemma {:induction false} SizeOfRemove(db: map<string, string>, keys: set<string>, k: string)
    requires keys <= db.Keys && k in keys
    ensures SizeOf(db, keys) == EntrySize(db, k) + SizeOf(db, keys - {k})
    decreases |keys|
  {
    var j :| j in keys && SizeOf(db, keys) == EntrySize(db, j) + SizeOf(db, keys - {j});
    if j != k {
      SizeOfRemove(db, keys - {j}, k);
      SizeOfRemove(db, keys - {k}, j);
      assert keys - {j} - {k} == keys - {k} - {j};
    }
  }

  /** Listing in two steps is listing the concatenated enumeration. */
  lemma {:induction false} RenderAppend(db: map<string, string>, a: seq<string>, b: seq<string>)
    requires forall k | k in a + b :: k in db
    ensures Render(db, a + b) == Render(db, a) + Render(db, b)
  {
    if a != [] {
      assert (a + b)[1..] == a[1..] + b;
      RenderAppend(db, a[1..], b);
    } else {
      assert a + b == b;
    }
  }

  /** The listing's length is the sum over the visited entries of the key's
      and the value's lengths. */
  lemma {:induction false} RenderLength(db: map<string, string>, order: seq<string>)
    requires forall k | k in order :: k in db
    requires NoDuplicates(order)
    ensures |Render(db, order)| == SizeOf(db, set k | k in order)
  {
    if order != [] {
      var rest := order[1..];
      RenderLength(db, rest);
      var visited := set k | k in order;
      SizeOfRemove(db, visited, order[0]);
      assert visited - {order[0]} == set k | k in rest by {
        forall k | k in rest ensures k != order[0] {
          var i :| 0 <= i < |rest| && rest[i] == k;
          assert order[i + 1] == k;
        }
      }
    } else {
      assert (set k | k in order) == {};
    }
  }

  /** Whatever the enumeration, the listing has `ListingSize(db)` characters. */
  lemma EnumerationLength(db: map<string, string>, order: seq<string>)
    requires IsEnumeration(order, db.Keys)
    ensures |Render(db, order)| == ListingSize(db)
  {
    RenderLength(db, order);
    assert (set k | k in order) == db.Keys;
  }

  /** The `n` characters of `s` starting at `i`. */
  function Window(s: string, i: nat, n: nat): string
    requires i + n <= |s|
  {
    s[i..i + n]
  }

  /** `t` occurs in `s` as a contiguous substring. */
  ghost predicate Occurs(t: string, s: string)
  {
    exists i: nat | i + |t| <= |s| :: Window(s, i, |t|) == t
  }

  /** Every entry shows up in the listing as its key immediately followed by
      its value. */
  lemma {:induction false} EntryOccurs(db: map<string, string>, order: seq<string>, k: string)
    requires IsEnumeration(order, db.Keys)
    requires k in db
    ensures Occurs(k + db[k], Render(db, order))
  {
    var j :| 0 <= j < |order| && order[j] == k;
    var before, after := order[..j], order[j + 1..];
    assert order == before + [k] + after;
    RenderAppend(db, before + [k], after);
    RenderAppend(db, before, [k]);
    assert Render(db, [k]) == k + db[k];
    var s := Render(db, order);
    var pre := Render(db, before);
    assert s == pre + (k + db[k]) + Render(db, after);
    assert Window(s, |pre|, |k + db[k]|) == k + db[k];
  }

  /** The empty store lists as the empty string. */
  lemma EmptyListing(order: seq<string>)
    requires IsEnumeration(order, {})
    ensures Render(map[], order) == ""
  {
    assert forall i | 0 <= i < |order| :: order[i] in order;
  }

  /** The format has no delimiter, so different stores can list identically:
      `{"a": "bc"}` and `{"ab": "c"}` both give `"abc"`. */
  lemma ListingIsAmbiguous()
    ensures map["a" := "bc"] != map["ab" := "c"]
    ensures Render(map["a" := "bc"], ["a"]) == Render(map["ab" := "c"], ["ab"]) == "abc"
  {
  }
}

/** The order `queued_message_names` of slurm_oci_notify_worker.py sorts by: modification time, then name. */
module AgeOrder {

  /** `<=` on Python strings: by code point. */
  predicate LexLeq(a: string, b: string) {
    a == [] || (b != [] && (a[0] < b[0] || (a[0] == b[0] && LexLeq(a[1..], b[1..]))))
  }

  lemma {:induction false} LexTotal(a: string, b: string)
    ensures LexLeq(a, b) || LexLeq(b, a)
    ensures LexLeq(a, b) && LexLeq(b, a) ==> a == b
  {
    if a != [] && b != [] && a[0] == b[0] {
      LexTotal(a[1..], b[1..]);
      assert a == [a[0]] + a[1..] && b == [b[0]] + b[1..];
    }
  }

  lemma {:induction false} LexTransitive(a: string, b: string, c: string)
    requires LexLeq(a, b) && LexLeq(b, c)
    ensures LexLeq(a, c)
  {
    if a != [] && a[0] == b[0] && b[0] == c[0] {
      LexTransitive(a[1..], b[1..], c[1..]);
    }
  }

  /** `mtime` gives the modification time of every listed file. */
  predicate NoLater(mtime: map<string, int>, a: string, b: string)
    requires a in mtime && b in mtime
  {
    mtime[a] < mtime[b] || (mtime[a] == mtime[b] && LexLeq(a, b))
  }

  ghost predicate Oldest(mtime: map<string, int>, names: seq<string>) {
    && (forall i :: 0 <= i < |names| ==> names[i] in mtime)
    && (forall i, j :: 0 <= i < j < |names| ==> names[i] != names[j] && NoLater(mtime, names[i], names[j]))
  }

  function AsSet(names: seq<string>): set<string> {
    set n | n in names
  }

  /** The sorted list of a directory: every file once, oldest first. */
  ghost predicate IsQueueOrder(mtime: map<string, int>, names: seq<string>) {
    Oldest(mtime, names) && AsSet(names) == mtime.Keys
  }

  function Insert(mtime: map<string, int>, name: string, names: seq<string>): (r: seq<string>)
    requires name in mtime && forall i :: 0 <= i < |names| ==> names[i] in mtime
    ensures AsSet(r) == AsSet(names) + {name}
  {
    if names == [] then [name]
    else if NoLater(mtime, name, names[0]) then [name] + names
    else
      assert forall i :: 0 <= i < |names[1..]| ==> names[1..][i] == names[i + 1];
      assert AsSet(names) == {names[0]} + AsSet(names[1..]);
      var rest := Insert(mtime, name, names[1..]);
      assert AsSet([names[0]] + rest) == {names[0]} + AsSet(rest);
      [names[0]] + rest
  }

  lemma {:induction false} InsertKeepsOrder(mtime: map<string, int>, name: string, names: seq<string>)
    requires name in mtime && Oldest(mtime, names) && name !in names
    ensures Oldest(mtime, Insert(mtime, name, names))
  {
    if names != [] {
      if NoLater(mtime, name, names[0]) {
        forall j | 0 <= j < |names|
          ensures NoLater(mtime, name, names[j])
        {
          if j > 0 && mtime[name] == mtime[names[0]] == mtime[names[j]] {
            LexTransitive(name, names[0], names[j]);
          }
        }
      } else {
        LexTotal(name, names[0]);
        var rest := Insert(mtime, name, names[1..]);
        assert forall i :: 0 <= i < |names[1..]| ==> names[1..][i] == names[i + 1];
        InsertKeepsOrder(mtime, name, names[1..]);
        forall j | 0 <= j < |rest|
          ensures rest[j] != names[0] && NoLater(mtime, names[0], rest[j])
        {
          assert rest[j] in AsSet(rest);
          assert rest[j] == name || rest[j] in names[1..];
        }
      }
    }
  }

  /** `queued_message_names`: the directory is listed in any order, then sorted. */
  method SortedNames(mtime: map<string, int>) returns (names: seq<string>)
    ensures IsQueueOrder(mtime, names)
  {
    names := [];
    var left := mtime.Keys;
    while left != {}
      invariant left <= mtime.Keys
      invariant Oldest(mtime, names) && AsSet(names) == mtime.Keys - left
    {
      var name :| name in left;
      assert name !in names by { assert name !in AsSet(names); }
      InsertKeepsOrder(mtime, name, names);
      names := Insert(mtime, name, names);
      left := left - {name};
    }
  }

  /** The order is determined by the directory: no two lists satisfy it. */
  lemma {:induction false} OrderIsUnique(mtime: map<string, int>, a: seq<string>, b: seq<string>)
    requires Oldest(mtime, a) && Oldest(mtime, b) && AsSet(a) == AsSet(b)
    ensures a == b
  {
    assert b != [] ==> b[0] in AsSet(b);
    if a != [] {
      assert a[0] in AsSet(a);
      var i :| 0 <= i < |b| && b[i] == a[0];
      var j :| 0 <= j < |a| && a[j] == b[0];
      LexTotal(a[0], b[0]);
      assert a[0] == b[0];
      TailSet(mtime, a);
      TailSet(mtime, b);
      OrderIsUnique(mtime, a[1..], b[1..]);
      assert a == [a[0]] + a[1..] && b == [b[0]] + b[1..];
    }
  }

  lemma TailSet(mtime: map<string, int>, a: seq<string>)
    requires Oldest(mtime, a) && a != []
    ensures AsSet(a[1..]) == AsSet(a) - {a[0]} && Oldest(mtime, a[1..])
  {
    assert forall i :: 0 <= i < |a[1..]| ==> a[1..][i] == a[i + 1];
    assert a == [a[0]] + a[1..];
  }
}

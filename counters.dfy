/**
 * Python's `Counter` and `defaultdict(int)` as used by the analyzer: a
 * dictionary from names to counts that remembers the order in which names
 * were first inserted (`dict(counter).items()` iterates in that order).
 */
module Counters {

  datatype Entry = Entry(name: string, count: nat)

  /** Entries in first-insertion order. */
  type Counter = seq<Entry>

  function NameSet(c: Counter): set<string>
  {
    set e | e in c :: e.name
  }

  /** No name is stored twice, as in any Python dictionary. */
  predicate Distinct(c: Counter)
  {
    c == [] || (c[0].name !in NameSet(c[1..]) && Distinct(c[1..]))
  }

  lemma NameSetCons(e: Entry, rest: Counter)
    ensures NameSet([e] + rest) == {e.name} + NameSet(rest)
  {
    var c := [e] + rest;
    forall n | n in NameSet(c) ensures n in {e.name} + NameSet(rest) {
      var x :| x in c && x.name == n;
    }
    forall n | n in {e.name} + NameSet(rest) ensures n in NameSet(c) {
      if n != e.name {
        var x :| x in rest && x.name == n;
        assert x in c;
      }
    }
  }

  /** `counter.get(name, 0)`. */
  function Get(c: Counter, name: string): nat
  {
    if c == [] then 0
    else if c[0].name == name then c[0].count
    else Get(c[1..], name)
  }

  /** The sum of all counts. */
  function Total(c: Counter): nat
  {
    if c == [] then 0 else c[0].count + Total(c[1..])
  }

  /**
   * `counter[name] += 1`: an existing entry is bumped where it stands, a new
   * name is appended with count 1.
   */
  function Increment(c: Counter, name: string): (r: Counter)
    ensures Total(r) == Total(c) + 1
  {
    if c == [] then [Entry(name, 1)]
    else if c[0].name == name then [Entry(name, c[0].count + 1)] + c[1..]
    else [c[0]] + Increment(c[1..], name)
  }

  /** Incrementing creates no zero count. */
  lemma {:induction false} IncrementPositive(c: Counter, name: string)
    requires forall e :: e in c ==> e.count >= 1
    ensures forall e :: e in Increment(c, name) ==> e.count >= 1
  {
    if c != [] && c[0].name != name {
      assert forall e :: e in c[1..] ==> e in c;
      IncrementPositive(c[1..], name);
    }
  }

  /** Incrementing adds `name` to the names and never duplicates one. */
  lemma {:induction false} IncrementNames(c: Counter, name: string)
    ensures NameSet(Increment(c, name)) == NameSet(c) + {name}
    ensures Distinct(c) ==> Distinct(Increment(c, name))
  {
    var r := Increment(c, name);
    if c == [] {
      NameSetCons(Entry(name, 1), []);
    } else if c[0].name == name {
      assert r[1..] == c[1..];
      NameSetCons(c[0], c[1..]);
      assert c == [c[0]] + c[1..];
      NameSetCons(r[0], c[1..]);
    } else {
      var rest := Increment(c[1..], name);
      IncrementNames(c[1..], name);
      assert r[1..] == rest;
      NameSetCons(c[0], c[1..]);
      assert c == [c[0]] + c[1..];
      NameSetCons(c[0], rest);
    }
  }

  /** Incrementing bumps the count of `name` and of no other name. */
  lemma {:induction false} IncrementGet(c: Counter, name: string, other: string)
    ensures Get(Increment(c, name), other) == Get(c, other) + (if other == name then 1 else 0)
  {
    if c != [] && c[0].name != name {
      IncrementGet(c[1..], name, other);
    }
  }

  /** The names of a counter, in iteration order. */
  function Keys(c: Counter): (ks: seq<string>)
    ensures |ks| == |c|
  {
    if c == [] then [] else [c[0].name] + Keys(c[1..])
  }

  lemma {:induction false} KeysNames(c: Counter, name: string)
    ensures name in Keys(c) <==> name in NameSet(c)
  {
    if c != [] {
      KeysNames(c[1..], name);
      NameSetCons(c[0], c[1..]);
      assert c == [c[0]] + c[1..];
    }
  }

  /** An existing name keeps its place; a new name goes last. */
  lemma {:induction false} IncrementKeys(c: Counter, name: string)
    ensures Keys(Increment(c, name)) == Keys(c) + (if name in NameSet(c) then [] else [name])
  {
    if c != [] {
      NameSetCons(c[0], c[1..]);
      assert c == [c[0]] + c[1..];
      if c[0].name != name {
        IncrementKeys(c[1..], name);
        assert Increment(c, name)[1..] == Increment(c[1..], name);
      }
    }
  }

  /** The distinct names of `names`, in order of first occurrence. */
  function FirstSeen(names: seq<string>): seq<string>
  {
    if names == [] then []
    else
      var init := FirstSeen(names[..|names| - 1]);
      if names[|names| - 1] in init then init else init + [names[|names| - 1]]
  }

  lemma {:induction false} FirstSeenMembers(names: seq<string>, name: string)
    ensures name in FirstSeen(names) <==> name in names
  {
    if names != [] {
      var init := names[..|names| - 1];
      FirstSeenMembers(init, name);
      assert names == init + [names[|names| - 1]];
    }
  }

  /** How many times `name` occurs in `names`. */
  function Occurrences(names: seq<string>, name: string): nat
  {
    if names == [] then 0
    else Occurrences(names[..|names| - 1], name) + (if names[|names| - 1] == name then 1 else 0)
  }

  /** The counter obtained by incrementing once per name, in order. */
  function Tally(names: seq<string>): (c: Counter)
    ensures Distinct(c)
    ensures Total(c) == |names|
  {
    if names == [] then []
    else
      var init := names[..|names| - 1];
      IncrementNames(Tally(init), names[|names| - 1]);
      Increment(Tally(init), names[|names| - 1])
  }

  /** A tally counts each name exactly as often as it occurs. */
  lemma {:induction false} TallyGet(names: seq<string>, name: string)
    ensures Get(Tally(names), name) == Occurrences(names, name)
  {
    if names != [] {
      TallyGet(names[..|names| - 1], name);
      IncrementGet(Tally(names[..|names| - 1]), names[|names| - 1], name);
    }
  }

  /** In a counter without repeated names, each entry holds the count `get` reports. */
  lemma {:induction false} GetEntry(c: Counter, i: int)
    requires Distinct(c) && 0 <= i < |c|
    ensures Get(c, c[i].name) == c[i].count
  {
    if i > 0 {
      assert c[i] in c[1..];
      GetEntry(c[1..], i - 1);
    }
  }

  /** No entry counts more than the whole counter. */
  lemma {:induction false} EntryWithinTotal(c: Counter, e: Entry)
    requires e in c
    ensures e.count <= Total(c)
  {
    if c[0] != e {
      EntryWithinTotal(c[1..], e);
    }
  }

  lemma {:induction false} OccursIn(names: seq<string>, name: string)
    ensures Occurrences(names, name) > 0 <==> name in names
  {
    if names != [] {
      var init := names[..|names| - 1];
      OccursIn(init, name);
      assert names == init + [names[|names| - 1]];
    }
  }

  /** Every name in a tally is counted at least once. */
  lemma {:induction false} TallyPositive(names: seq<string>)
    ensures forall e :: e in Tally(names) ==> e.count >= 1
  {
    if names != [] {
      TallyPositive(names[..|names| - 1]);
      IncrementPositive(Tally(names[..|names| - 1]), names[|names| - 1]);
    }
  }

  /** A tally holds exactly the names counted. */
  lemma {:induction false} TallyNames(names: seq<string>)
    ensures NameSet(Tally(names)) == set n | n in names
  {
    if names != [] {
      var init := names[..|names| - 1];
      TallyNames(init);
      IncrementNames(Tally(init), names[|names| - 1]);
      assert names == init + [names[|names| - 1]];
    }
  }

  /** The keys of a tally are the names in order of first occurrence. */
  lemma {:induction false} TallyKeys(names: seq<string>)
    ensures Keys(Tally(names)) == FirstSeen(names)
  {
    if names != [] {
      var init, x := names[..|names| - 1], names[|names| - 1];
      TallyKeys(init);
      TallyNames(init);
      IncrementKeys(Tally(init), x);
      FirstSeenMembers(init, x);
    }
  }
}

/**
 * `ArgsArray`: an append-only list of owned NUL-terminated strings, plus an
 * argv-style pointer array rebuilt on every request. A pointer is the
 * position of the entry it points at; `None` is the null pointer.
 */
module Args {
  import opened Wrappers

  const Nul: char := '\0'

  /** The owned copy `add` stores: the characters of `s` followed by a NUL. */
  function Entry(s: string): (e: seq<char>)
    ensures |e| == |s| + 1 && e[..|s|] == s && e[|s|] == Nul
  {
    s + [Nul]
  }

  /** The entries a list of arguments produces, in order. */
  function Entries(v: seq<string>): (es: seq<seq<char>>)
    ensures |es| == |v|
    ensures forall i :: 0 <= i < |v| ==> es[i] == Entry(v[i])
  {
    seq(|v|, i requires 0 <= i < |v| => Entry(v[i]))
  }

  /** The argv-style view of `n` entries: one pointer per entry, then null. */
  function PointerView(n: nat): (p: seq<Option<nat>>)
    ensures |p| == n + 1
    ensures forall i :: 0 <= i < n ==> p[i] == Some(i)
    ensures p[n] == None
  {
    seq(n, i requires 0 <= i < n => Some(i)) + [None]
  }

  /** The C string an entry holds: its characters up to the first NUL. */
  function ReadCString(e: seq<char>): seq<char> {
    if e == [] || e[0] == Nul then [] else [e[0]] + ReadCString(e[1..])
  }

  /** A string without NUL characters reads back from its entry unchanged. */
  lemma {:induction false} ReadCStringOfEntry(s: string)
    requires Nul !in s
    ensures ReadCString(Entry(s)) == s
  {
    if s != [] {
      assert Entry(s)[1..] == Entry(s[1..]);
      ReadCStringOfEntry(s[1..]);
    }
  }

  /**
   * What a consumer of an argv-style array reads, starting at position
   * `from`: one string per pointer until the null pointer.
   */
  function ReadArgv(entries: seq<seq<char>>, ptrs: seq<Option<nat>>, from: nat): seq<string>
    decreases |ptrs| - from
  {
    if from >= |ptrs| then []
    else match ptrs[from]
      case None => []
      case Some(i) =>
        (if i < |entries| then [ReadCString(entries[i])] else [])
        + ReadArgv(entries, ptrs, from + 1)
  }

  /**
   * Reading the pointer view of the entries built from `v` yields `v` again,
   * when no argument contains a NUL.
   */
  lemma {:induction false} ArgvRoundTrip(v: seq<string>, from: nat)
    requires forall i :: 0 <= i < |v| ==> Nul !in v[i]
    requires from <= |v|
    ensures ReadArgv(Entries(v), PointerView(|v|), from) == v[from..]
    decreases |v| - from
  {
    if from < |v| {
      ReadCStringOfEntry(v[from]);
      ArgvRoundTrip(v, from + 1);
      assert v[from..] == [v[from]] + v[from + 1..];
    }
  }

  class ArgsArray {
    /** `args`: the owned, NUL-terminated copies, in insertion order. */
    var args: seq<seq<char>>
    /** `structure`: the pointer array returned by the last `get()`. */
    var structure: seq<Option<nat>>

    /** Every entry ends with a NUL. */
    ghost predicate Valid()
      reads this
    {
      forall i :: 0 <= i < |args| ==> |args[i]| > 0 && args[i][|args[i]| - 1] == Nul
    }

    /** `ArgsArray()`: no entries. */
    constructor ()
      ensures Valid() && args == [] && structure == []
    {
      args, structure := [], [];
    }

    /** `ArgsArray(vector)`: adds the arguments in order, so entry i holds argument i. */
    constructor FromVector(v: seq<string>)
      ensures Valid() && args == Entries(v) && structure == []
    {
      args, structure := [], [];
      new;
      var i := 0;
      while i < |v|
        invariant 0 <= i <= |v|
        invariant Valid() && args == Entries(v[..i]) && structure == []
      {
        Add(v[i]);
        assert v[..i + 1] == v[..i] + [v[i]];
        i := i + 1;
      }
      assert v[..|v|] == v;
    }

    /** `add`: appends one owned copy of `s` with its NUL; earlier entries are untouched. */
    method Add(s: string)
      requires Valid()
      modifies this`args
      ensures Valid()
      ensures args == old(args) + [Entry(s)]
      ensures structure == old(structure)
    {
      args := args + [Entry(s)];
    }

    /**
     * `get`: clears the pointer array and rebuilds it from the current
     * entries, null-terminated. The entries are not modified.
     */
    method Get() returns (p: seq<Option<nat>>)
      requires Valid()
      modifies this`structure
      ensures Valid() && args == old(args)
      ensures structure == PointerView(|args|) && p == structure
    {
      structure := [];
      var i := 0;
      while i < |args|
        invariant 0 <= i <= |args|
        invariant structure == PointerView(i)[..i]
      {
        structure := structure + [Some(i)];
        i := i + 1;
      }
      structure := structure + [None];
      p := structure;
    }

    /** `empty`: true exactly when no entry has been added. */
    method IsEmpty() returns (b: bool)
      ensures b <==> args == []
    {
      b := |args| == 0;
    }
  }

  /** Requesting the pointer array twice gives the same array. */
  method GetTwice(a: ArgsArray) returns (p1: seq<Option<nat>>, p2: seq<Option<nat>>)
    requires a.Valid()
    modifies a
    ensures p1 == p2 && a.args == old(a.args)
  {
    p1 := a.Get();
    p2 := a.Get();
  }

  /** After an `add`, the pointer array has one more pointer, to the new entry. */
  method GetAfterAdd(a: ArgsArray, s: string) returns (p: seq<Option<nat>>)
    requires a.Valid()
    modifies a
    ensures |p| == |old(a.args)| + 2 && a.args == old(a.args) + [Entry(s)]
    ensures p[|old(a.args)|] == Some(|old(a.args)|)
    ensures p[|p| - 1] == None
  {
    a.Add(s);
    p := a.Get();
  }

  /** A default-constructed array is empty and its pointer array is just the null pointer. */
  method DefaultIsEmpty() returns (empty: bool, p: seq<Option<nat>>)
    ensures empty && p == [None]
  {
    var a := new ArgsArray();
    empty := a.IsEmpty();
    p := a.Get();
  }
}

/** Argument vectors: the NUL-terminated form in process memory, and SplitArgv. */
module Argv {
  import opened Types
  import opened Bytes

  /** The bytes between arg_start and arg_end: each argument followed by a NUL. */
  function Encode(args: seq<Text>): seq<Byte> {
    if args == [] then [] else args[0] + [0] + Encode(args[1..])
  }

  /** bytes.Split on NUL. */
  function Split(b: seq<Byte>): (parts: seq<Text>)
    ensures parts != []
    decreases |b|
  {
    var i := FirstNul(b);
    if i == |b| then [b] else [b[..i]] + Split(b[i + 1..])
  }

  /** bytes.TrimSuffix of one NUL. */
  function TrimNul(b: seq<Byte>): seq<Byte> {
    if b != [] && b[|b| - 1] == 0 then b[..|b| - 1] else b
  }

  function ArgvOf(b: seq<Byte>): seq<Text> {
    var t := TrimNul(b);
    if t == [] then [] else Split(t)
  }

  ghost predicate Clean(args: seq<Text>) {
    forall i :: 0 <= i < |args| ==> NulFree(args[i])
  }

  // ---------------------------------------------- splitting inverts joining

  lemma SplitLast(s: Text)
    requires NulFree(s)
    ensures Split(s) == [s]
  {
    var i := FirstNul(s);
  }

  lemma SplitFirst(s: Text, rest: seq<Byte>)
    requires NulFree(s)
    ensures Split(s + [0] + rest) == [s] + Split(rest)
  {
    var b := s + [0] + rest;
    CStringOf(s, rest);
    var i := FirstNul(b);
    assert |b[..i]| == i;
    assert i == |s|;
    assert b[i + 1..] == rest;
  }

  /** Whole arguments followed by a last piece split into exactly those. */
  lemma {:induction false} SplitPieces(args: seq<Text>, last: Text)
    requires Clean(args) && NulFree(last)
    ensures Split(Encode(args) + last) == args + [last]
  {
    if args == [] {
      assert Encode(args) + last == last;
      SplitLast(last);
    } else {
      var rest := Encode(args[1..]) + last;
      SplitPieces(args[1..], last);
      assert Encode(args) + last == args[0] + [0] + rest;
      SplitFirst(args[0], rest);
    }
  }

  lemma EncodeCons(first: Text, rest: seq<Text>)
    ensures Encode([first] + rest) == first + [0] + Encode(rest)
  {
    assert ([first] + rest)[1..] == rest;
  }

  /** The pieces of a split, joined back with NULs in between. */
  function Join(parts: seq<Text>): seq<Byte>
    requires parts != []
  {
    Encode(parts[..|parts| - 1]) + parts[|parts| - 1]
  }

  lemma JoinCons(first: Text, rest: seq<Text>)
    requires rest != []
    ensures Join([first] + rest) == first + [0] + Join(rest)
  {
    var p := [first] + rest;
    assert p[..|p| - 1] == [first] + rest[..|rest| - 1];
    EncodeCons(first, rest[..|rest| - 1]);
  }

  lemma CleanCons(first: Text, rest: seq<Text>)
    requires NulFree(first) && Clean(rest)
    ensures Clean([first] + rest)
  {
  }

  lemma Around(b: seq<Byte>, i: nat)
    requires i < |b| && b[i] == 0
    ensures b == b[..i] + [0] + b[i + 1..]
  {
  }

  /** Every byte string splits into NUL-free pieces that join back to it. */
  lemma {:induction false} SplitSound(b: seq<Byte>)
    ensures Clean(Split(b)) && Join(Split(b)) == b
    decreases |b|
  {
    var i := FirstNul(b);
    if i == |b| {
      assert Split(b) == [b];
      assert [b][..0] == [];
    } else {
      var rest := Split(b[i + 1..]);
      assert Split(b) == [b[..i]] + rest;
      Around(b, i);
      SplitSound(b[i + 1..]);
      CleanCons(b[..i], rest);
      calc {
        Join(Split(b));
        { JoinCons(b[..i], rest); }
        b[..i] + [0] + Join(rest);
        b;
      }
    }
  }

  lemma {:induction false} EncodeAppend(args: seq<Text>, last: Text)
    ensures Encode(args + [last]) == Encode(args) + last + [0]
  {
    if args == [] {
      assert args + [last] == [last];
      assert [last][1..] == [];
    } else {
      EncodeAppend(args[1..], last);
      assert (args + [last])[1..] == args[1..] + [last];
    }
  }

  /** What the buffer says when it ends inside or right after an argument. */
  lemma ArgvOfPieces(args: seq<Text>, last: Text)
    requires Clean(args) && NulFree(last)
    requires last != [] || args != [[]]
    ensures ArgvOf(Encode(args) + last) == if last == [] then args else args + [last]
  {
    var b := Encode(args) + last;
    if last != [] {
      assert b[|b| - 1] == last[|last| - 1];
      SplitPieces(args, last);
    } else if args != [] {
      var n := |args| - 1;
      assert args == args[..n] + [args[n]];
      EncodeAppend(args[..n], args[n]);
      assert b == Encode(args[..n]) + args[n] + [0];
      assert TrimNul(b) == Encode(args[..n]) + args[n];
      EncodeEmpty(args[..n]);
      SplitPieces(args[..n], args[n]);
    }
  }

  // ------------------------------------------------------------ truncation

  /** Where a cut at n falls: after k whole arguments and j bytes of the next. */
  ghost predicate CutAt(args: seq<Text>, n: nat, k: nat, j: nat) {
    k < |args| && j <= |args[k]| && n == |Encode(args[..k])| + j
  }

  lemma {:induction false} Locate(args: seq<Text>, n: nat) returns (k: nat, j: nat)
    requires n < |Encode(args)|
    ensures CutAt(args, n, k, j)
    ensures Encode(args)[..n] == Encode(args[..k]) + args[k][..j]
  {
    if n <= |args[0]| {
      k, j := 0, n;
      assert args[..0] == [];
    } else {
      var k', j' := Locate(args[1..], n - |args[0]| - 1);
      k, j := k' + 1, j';
      assert args[..k][1..] == args[1..][..k'];
      assert Encode(args)[..n] == args[0] + [0] + Encode(args[1..])[..n - |args[0]| - 1];
    }
  }

  lemma {:induction false} EncodeLength(args: seq<Text>, k: nat)
    requires k < |args|
    ensures |Encode(args)| == |Encode(args[..k])| + |args[k]| + 1 + |Encode(args[k + 1..])|
  {
    if k == 0 {
      assert args[..0] == [];
    } else {
      EncodeLength(args[1..], k - 1);
      assert args[..k][1..] == args[1..][..k - 1];
      assert args[1..][k..] == args[k + 1..];
    }
  }

  lemma {:induction false} EncodeEmpty(args: seq<Text>)
    ensures Encode(args) == [] <==> args == []
  {
  }

  /** The arguments read from the first n bytes of the encoding. */
  function Seen(args: seq<Text>, n: nat): seq<Text> {
    var b := Encode(args);
    ArgvOf(if n < |b| then b[..n] else b)
  }

  /** A cut buffer yields a prefix of the list whose last element may itself be cut. */
  lemma SeenCut(args: seq<Text>, n: nat) returns (k: nat, j: nat)
    requires Clean(args) && 2 <= n < |Encode(args)|
    ensures CutAt(args, n, k, j)
    ensures Seen(args, n) == if j == 0 then args[..k] else args[..k] + [args[k][..j]]
  {
    k, j := Locate(args, n);
    if args[..k] == [[]] { assert Encode(args[..k][1..]) == []; }
    ArgvOfPieces(args[..k], args[k][..j]);
  }

  lemma SeenWhole(args: seq<Text>, n: nat)
    requires Clean(args) && |Encode(args)| <= n
    ensures Seen(args, n) == args <==> args != [[]]
  {
    if args == [[]] {
      assert args[1..] == [];
      assert Encode(args) == [0];
    } else {
      assert Encode(args) + [] == Encode(args);
      ArgvOfPieces(args, []);
    }
  }

  /** A cut list is whole only if just its last terminator is missing. */
  lemma CutWhole(args: seq<Text>, n: nat, k: nat, j: nat)
    requires CutAt(args, n, k, j) && n < |Encode(args)|
    ensures (if j == 0 then args[..k] else args[..k] + [args[k][..j]]) == args
            <==> |Encode(args)| == n + 1 && args[|args| - 1] != []
  {
    EncodeLength(args, k);
    EncodeEmpty(args[k + 1..]);
    var seen := if j == 0 then args[..k] else args[..k] + [args[k][..j]];
    if |Encode(args)| == n + 1 {
      assert args[k + 1..] == [] && k == |args| - 1 && j == |args[k]|;
      if j > 0 { assert args[k][..j] == args[k] && args[..k] + [args[k]] == args; }
    } else if k == |args| - 1 && j > 0 {
      assert seen[k] == args[k][..j] && j < |args[k]|;
    }
  }

  /**
   * The whole list comes back exactly when it fits, or when only its final terminator was
   * cut off and the last argument is not empty. A single empty argument never comes back.
   */
  lemma SeenExact(args: seq<Text>, n: nat)
    requires Clean(args) && 2 <= n
    ensures Seen(args, n) == args <==>
              if |Encode(args)| <= n then args != [[]]
              else |Encode(args)| == n + 1 && args[|args| - 1] != []
  {
    if |Encode(args)| <= n {
      SeenWhole(args, n);
    } else {
      var k, j := SeenCut(args, n);
      CutWhole(args, n, k, j);
    }
  }

  // ------------------------------------------------------------- SplitArgv

  /** Adding a piece adds a NUL and the piece. */
  lemma JoinMore(parts: seq<Text>, last: Text)
    requires parts != []
    ensures Join(parts + [last]) == Join(parts) + [0] + last
  {
    var p := parts + [last];
    var init, end := parts[..|parts| - 1], parts[|parts| - 1];
    assert p[..|p| - 1] == parts == init + [end];
    EncodeAppend(init, end);
  }

  /** NUL-free pieces are determined by their join. */
  lemma JoinSplit(parts: seq<Text>)
    requires parts != [] && Clean(parts)
    ensures Split(Join(parts)) == parts
  {
    var init, end := parts[..|parts| - 1], parts[|parts| - 1];
    SplitPieces(init, end);
    assert parts == init + [end];
  }

  lemma JoinGrows(parts: seq<Text>, last: Text, c: Byte)
    ensures Join(parts + [last + [c]]) == Join(parts + [last]) + [c]
  {
    assert (parts + [last])[..|parts|] == parts;
    assert (parts + [last + [c]])[..|parts|] == parts;
  }

  /** The scan has read t up to i: whole pieces, and one that began at from. */
  ghost predicate Scanned(t: seq<Byte>, args: seq<Text>, from: nat, i: nat) {
    from <= i <= |t| && Clean(args) && NulFree(t[from..i]) && Join(args + [t[from..i]]) == t[..i]
  }

  lemma ScanCut(t: seq<Byte>, args: seq<Text>, from: nat, i: nat)
    requires Scanned(t, args, from, i) && i < |t| && t[i] == 0
    ensures Scanned(t, args + [t[from..i]], i + 1, i + 1)
  {
    JoinMore(args + [t[from..i]], []);
    assert t[i + 1..i + 1] == [];
    assert t[..i + 1] == t[..i] + [0] + [];
  }

  lemma ScanOn(t: seq<Byte>, args: seq<Text>, from: nat, i: nat)
    requires Scanned(t, args, from, i) && i < |t| && t[i] != 0
    ensures Scanned(t, args, from, i + 1)
  {
    JoinGrows(args, t[from..i], t[i]);
    assert t[from..i + 1] == t[from..i] + [t[i]];
    assert t[..i + 1] == t[..i] + [t[i]];
  }

  lemma ScanEnd(t: seq<Byte>, args: seq<Text>, from: nat)
    requires Scanned(t, args, from, |t|)
    ensures var all := args + [t[from..]];
            Clean(all) && Join(all) == t && all == Split(t)
  {
    assert t[..|t|] == t && t[from..|t|] == t[from..];
    JoinSplit(args + [t[from..]]);
  }

  /** One scan over the bytes: a piece ends at each NUL and at the end. */
  method SplitArgv(b: seq<Byte>) returns (args: seq<Text>)
    ensures Clean(args)
    ensures args == [] <==> TrimNul(b) == []
    ensures args != [] ==> Join(args) == TrimNul(b)
    ensures args == ArgvOf(b)
  {
    var t := b;
    if |t| > 0 && t[|t| - 1] == 0 {
      t := t[..|t| - 1];
    }
    if |t| == 0 {
      return [];
    }
    args := [];
    var from := 0;
    for i := 0 to |t|
      invariant from <= i && Scanned(t, args, from, i)
    {
      if t[i] == 0 {
        ScanCut(t, args, from, i);
        args, from := args + [t[from..i]], i + 1;
      } else {
        ScanOn(t, args, from, i);
      }
    }
    ScanEnd(t, args, from);
    args := args + [t[from..]];
  }
}

/** The few pieces of Python's `str` behaviour that the tunnel server relies on:
    `s.split(sep)`, `s.split(sep, 1)[-1]`, `s.endswith(suffix)` and `s.lower()`,
    each for the one-character separators the server uses. */
module PyStr {

  /** `sep.join(parts)`: the inverse of `Split`. */
  function Join(parts: seq<string>, sep: char): (s: string)
    requires |parts| >= 1
  {
    if |parts| == 1 then parts[0] else parts[0] + [sep] + Join(parts[1..], sep)
  }

  /** `s.split(sep)`: the pieces between separators, in order. Python never
      returns an empty list here: `"".split(":")` is `[""]`. */
  function Split(s: string, sep: char): (parts: seq<string>)
    ensures |parts| >= 1
    decreases |s|
  {
    if |s| == 0 then [""]
    else
      var rest := Split(s[1..], sep);
      if s[0] == sep then [""] + rest
      else [[s[0]] + rest[0]] + rest[1..]
  }

  /** Joining the pieces with the separator gives back the string. */
  lemma {:induction false} SplitJoin(s: string, sep: char)
    ensures Join(Split(s, sep), sep) == s
    decreases |s|
  {
    if |s| > 0 {
      var rest := Split(s[1..], sep);
      SplitJoin(s[1..], sep);
      assert s == [s[0]] + s[1..];
      if s[0] != sep {
        var parts := [[s[0]] + rest[0]] + rest[1..];
        assert Split(s, sep) == parts;
        assert parts[1..] == rest[1..];
        if |rest| > 1 {
          assert Join(rest, sep) == rest[0] + [sep] + Join(rest[1..], sep);
          assert Join(parts, sep) == [s[0]] + rest[0] + [sep] + Join(rest[1..], sep);
        }
      }
    }
  }

  /** No piece contains the separator. */
  lemma {:induction false} SplitPieces(s: string, sep: char)
    ensures forall i :: 0 <= i < |Split(s, sep)| ==> sep !in Split(s, sep)[i]
    decreases |s|
  {
    if |s| > 0 {
      var rest := Split(s[1..], sep);
      SplitPieces(s[1..], sep);
      if s[0] != sep {
        var parts := [[s[0]] + rest[0]] + rest[1..];
        assert Split(s, sep) == parts;
        assert forall i :: 1 <= i < |parts| ==> parts[i] == rest[i];
      }
    }
  }

  /** One step of `Split` on a string given as its first character and the rest. */
  lemma SplitCons(c: char, t: string, sep: char)
    ensures Split([c] + t, sep) ==
      if c == sep then [""] + Split(t, sep) else [[c] + Split(t, sep)[0]] + Split(t, sep)[1..]
  {
    assert ([c] + t)[0] == c;
    assert ([c] + t)[1..] == t;
  }

  /** Prefixing a character to the first piece commutes with appending pieces. */
  lemma ConsPieces(h: string, st: seq<string>, sb: seq<string>)
    requires |st| >= 1
    ensures [h + (st + sb)[0]] + (st + sb)[1..] == ([h + st[0]] + st[1..]) + sb
  {
    assert (st + sb)[1..] == st[1..] + sb;
  }

  /** Concatenation is associative. */
  lemma Assoc<T>(p: seq<T>, q: seq<T>, r: seq<T>)
    ensures p + (q + r) == (p + q) + r
  {
  }

  /** Regrouping a concatenation of pieces around one separator. */
  lemma Regroup<T>(p: seq<T>, q: seq<T>, r: seq<T>, m: T)
    ensures p + q + [m] + r == p + (q + [m] + r)
  {
  }

  /** The inductive step of SplitConcat for a leading character other than
      the separator: it joins the first piece. */
  lemma SplitConcatStep(c: char, t: string, b: string, sep: char)
    requires c != sep
    requires Split(t + [sep] + b, sep) == Split(t, sep) + Split(b, sep)
    ensures Split([c] + (t + [sep] + b), sep) == Split([c] + t, sep) + Split(b, sep)
  {
    SplitCons(c, t + [sep] + b, sep);
    SplitCons(c, t, sep);
    ConsPieces([c], Split(t, sep), Split(b, sep));
  }

  /** The inductive step of SplitConcat for a leading separator: it starts an
      empty piece. */
  lemma SplitConcatSepStep(t: string, b: string, sep: char)
    requires Split(t + [sep] + b, sep) == Split(t, sep) + Split(b, sep)
    ensures Split([sep] + (t + [sep] + b), sep) == Split([sep] + t, sep) + Split(b, sep)
  {
    SplitCons(sep, t + [sep] + b, sep);
    SplitCons(sep, t, sep);
    Assoc([""], Split(t, sep), Split(b, sep));
  }

  /** A non-empty sequence is its head followed by its tail. */
  lemma HeadTail<T>(a: seq<T>)
    requires |a| > 0
    ensures a == [a[0]] + a[1..]
  {
  }

  /** Splitting at a separator splits the two sides independently. */
  lemma {:induction false} SplitConcat(a: string, b: string, sep: char)
    ensures Split(a + [sep] + b, sep) == Split(a, sep) + Split(b, sep)
    decreases |a|
  {
    if |a| == 0 {
      Regroup([], [], b, sep);
      SplitCons(sep, b, sep);
    } else {
      var c, t := a[0], a[1..];
      HeadTail(a);
      Regroup([c], t, b, sep);
      SplitConcat(t, b, sep);
      if c == sep {
        SplitConcatSepStep(t, b, sep);
      } else {
        SplitConcatStep(c, t, b, sep);
      }
    }
  }

  /** A string without the separator is a single piece. */
  lemma {:induction false} SplitNoSep(s: string, sep: char)
    requires sep !in s
    ensures Split(s, sep) == [s]
    decreases |s|
  {
    if |s| > 0 {
      assert sep !in s[1..];
      SplitNoSep(s[1..], sep);
      assert [s[0]] + s[1..] == s;
    }
  }

  /** There is one more piece than there are separators. */
  lemma {:induction false} SplitLength(s: string, sep: char)
    ensures |Split(s, sep)| == multiset(s)[sep] + 1
    decreases |s|
  {
    if |s| > 0 {
      SplitLength(s[1..], sep);
      assert s == [s[0]] + s[1..];
      assert multiset(s) == multiset([s[0]]) + multiset(s[1..]);
    }
  }

  /** Index of the first `c` in `s`, or `|s|` when there is none. */
  function FirstIndex(s: string, c: char): (i: nat)
    ensures i <= |s|
    ensures i < |s| ==> s[i] == c
    ensures c !in s[..i]
    decreases |s|
  {
    if |s| == 0 then 0
    else if s[0] == c then 0
    else
      var j := FirstIndex(s[1..], c);
      assert s[..j + 1] == [s[0]] + s[1..][..j];
      j + 1
  }

  /** `s.split(sep, 1)[-1]`: what follows the first separator, or all of `s`
      when there is no separator. */
  function SplitOnceTail(s: string, sep: char): (r: string)
    ensures sep !in s ==> r == s
    ensures sep in s ==> exists i :: 0 <= i < |s| && s[i] == sep && sep !in s[..i] && r == s[i + 1..]
  {
    var i := FirstIndex(s, sep);
    if i == |s| then
      assert s[..i] == s;
      s
    else
      s[i + 1..]
  }

  /** The first separator of `a + [sep] + b` is the one after `a` when `a` has none. */
  lemma {:induction false} FirstIndexConcat(a: string, b: string, sep: char)
    requires sep !in a
    ensures FirstIndex(a + [sep] + b, sep) == |a|
    decreases |a|
  {
    var s := a + [sep] + b;
    if |a| > 0 {
      assert s[0] == a[0];
      assert s[1..] == a[1..] + [sep] + b;
      assert sep !in a[1..];
      FirstIndexConcat(a[1..], b, sep);
    }
  }

  lemma SplitOnceTailConcat(a: string, b: string, sep: char)
    requires sep !in a
    ensures SplitOnceTail(a + [sep] + b, sep) == b
  {
    FirstIndexConcat(a, b, sep);
    assert (a + [sep] + b)[|a| + 1..] == b;
  }

  /** Two separator-free pieces joined by the separator split back apart. */
  lemma SplitTwo(y: string, z: string, sep: char)
    requires sep !in y && sep !in z
    ensures Split(y + [sep] + z, sep) == [y, z]
  {
    SplitNoSep(y, sep);
    SplitNoSep(z, sep);
    SplitConcat(y, z, sep);
  }

  /** Three separator-free pieces joined by the separator split back apart. */
  lemma SplitThree(x: string, y: string, z: string, sep: char)
    requires sep !in x && sep !in y && sep !in z
    ensures Split(x + [sep] + y + [sep] + z, sep) == [x, y, z]
  {
    Regroup(x + [sep], y, z, sep);
    SplitTwo(y, z, sep);
    SplitNoSep(x, sep);
    SplitConcat(x, y + [sep] + z, sep);
  }

  /** `s.endswith(suffix)`: some tail of `s` is `suffix`. */
  predicate EndsWith(s: string, suffix: string): (b: bool)
    ensures b <==> exists k :: 0 <= k <= |s| && s[k..] == suffix
  {
    |suffix| <= |s| && s[|s| - |suffix|..] == suffix
  }

  /** Lower-casing one character: ASCII capitals move to their small letter,
      everything else is kept. */
  function LowerChar(c: char): (r: char)
    ensures !('A' <= r <= 'Z')
    ensures 'A' <= c <= 'Z' ==> r as int == c as int + 32
    ensures !('A' <= c <= 'Z') ==> r == c
  {
    if 'A' <= c <= 'Z' then (c as int + 32) as char else c
  }

  /** `s.lower()` restricted to ASCII letters. */
  function Lower(s: string): (r: string)
    ensures |r| == |s|
    ensures forall i :: 0 <= i < |r| ==> !('A' <= r[i] <= 'Z')
    ensures forall i :: 0 <= i < |r| ==> r[i] == s[i] || ('A' <= s[i] <= 'Z' && r[i] as int == s[i] as int + 32)
  {
    seq(|s|, i requires 0 <= i < |s| => LowerChar(s[i]))
  }
}

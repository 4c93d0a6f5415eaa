/** The string and list operations of Python that the bot relies on
    (`startswith`, `in`, `join`, `split`, `list.remove`, `str(int)`,
    `int(str)`), written out over sequences, with the facts about them that
    the rest of the model uses. */
module Strings {
  import opened Wrappers

  /** `s.startswith(p)` */
  predicate StartsWith(s: string, p: string)
  {
    |p| <= |s| && s[..|p|] == p
  }

  /** `s.endswith(p)` */
  predicate EndsWith(s: string, p: string)
  {
    |p| <= |s| && s[|s| - |p|..] == p
  }

  /** `p in s` for two strings: `p` occurs somewhere in `s`. */
  predicate Contains(s: string, p: string)
    decreases |s|
  {
    StartsWith(s, p) || (|s| > 0 && Contains(s[1..], p))
  }

  lemma {:induction false} ContainsAt(s: string, p: string, i: nat)
    requires i + |p| <= |s| && s[i..i + |p|] == p
    ensures Contains(s, p)
    decreases i
  {
    if i > 0 {
      assert s[1..][i - 1..i - 1 + |p|] == s[i..i + |p|];
      ContainsAt(s[1..], p, i - 1);
    }
  }

  /** A string contains every one of its prefixes and suffixes. */
  lemma ContainsAffix(a: string, p: string, b: string)
    ensures Contains(a + p + b, p)
  {
    var s := a + p + b;
    assert s[|a|..|a| + |p|] == p;
    ContainsAt(s, p, |a|);
  }

  /** A string that lacks the first character of `p` does not contain `p`. */
  lemma {:induction false} NotContainsWithoutFirstChar(s: string, p: string)
    requires p != [] && p[0] !in s
    ensures !Contains(s, p)
    decreases |s|
  {
    if s != [] {
      assert s[0] != p[0];
      NotContainsWithoutFirstChar(s[1..], p);
    }
  }

  /** `sep.join(parts)` */
  function Join(sep: string, parts: seq<string>): string
  {
    if |parts| == 0 then ""
    else if |parts| == 1 then parts[0]
    else parts[0] + sep + Join(sep, parts[1..])
  }

  /** The text a list of posts makes when each is followed by a newline,
      as the chunkers append `post + "\n"`. */
  function Lines(posts: seq<string>): string
  {
    if posts == [] then "" else posts[0] + "\n" + Lines(posts[1..])
  }

  lemma {:induction false} LinesAppend(a: seq<string>, b: seq<string>)
    ensures Lines(a + b) == Lines(a) + Lines(b)
  {
    if a != [] {
      assert (a + b)[1..] == a[1..] + b;
      LinesAppend(a[1..], b);
      calc {
        Lines(a + b);
        a[0] + "\n" + Lines(a[1..] + b);
        a[0] + "\n" + (Lines(a[1..]) + Lines(b));
        (a[0] + "\n" + Lines(a[1..])) + Lines(b);
      }
    } else {
      assert a + b == b;
    }
  }

  lemma LinesSplit(posts: seq<string>, i: nat, j: nat, k: nat)
    requires i <= j <= k <= |posts|
    ensures Lines(posts[i..k]) == Lines(posts[i..j]) + Lines(posts[j..k])
  {
    assert posts[i..k] == posts[i..j] + posts[j..k];
    LinesAppend(posts[i..j], posts[j..k]);
  }

  lemma LinesSnoc(posts: seq<string>, i: nat, j: nat)
    requires i <= j < |posts|
    ensures Lines(posts[i..j + 1]) == Lines(posts[i..j]) + posts[j] + "\n"
  {
    LinesSplit(posts, i, j, j + 1);
    assert posts[j..j + 1] == [posts[j]];
    assert Lines([posts[j]]) == posts[j] + "\n" + Lines([]);
  }

  /** The concatenation of a list of message chunks, as the receiver reads it. */
  function Concat(chunks: seq<string>): string
  {
    if chunks == [] then "" else chunks[0] + Concat(chunks[1..])
  }

  lemma {:induction false} ConcatAppend(a: seq<string>, b: seq<string>)
    ensures Concat(a + b) == Concat(a) + Concat(b)
  {
    if a != [] {
      assert (a + b)[1..] == a[1..] + b;
      ConcatAppend(a[1..], b);
      calc {
        Concat(a + b);
        a[0] + Concat(a[1..] + b);
        a[0] + (Concat(a[1..]) + Concat(b));
        (a[0] + Concat(a[1..])) + Concat(b);
      }
    } else {
      assert a + b == b;
    }
  }

  lemma ConcatSnoc(a: seq<string>, x: string)
    ensures Concat(a + [x]) == Concat(a) + x
  {
    ConcatAppend(a, [x]);
    assert Concat([x]) == x + Concat([]);
  }

  /** `s.split(c)` with an explicit one-character separator: every
      separator splits, empty fields are kept, and `"".split(c) == [""]`. */
  function Split(s: string, c: char): (r: seq<string>)
    ensures |r| >= 1
  {
    if s == [] then [""]
    else
      var rest := Split(s[1..], c);
      if s[0] == c then [""] + rest else [[s[0]] + rest[0]] + rest[1..]
  }

  lemma {:induction false} SplitFieldsHaveNoSeparator(s: string, c: char)
    ensures forall i :: 0 <= i < |Split(s, c)| ==> c !in Split(s, c)[i]
  {
    if s != [] {
      SplitFieldsHaveNoSeparator(s[1..], c);
    }
  }

  /** Splitting undoes joining, when no field holds the separator. */
  lemma {:induction false} SplitJoin(parts: seq<string>, c: char)
    requires |parts| >= 1
    requires forall i :: 0 <= i < |parts| ==> c !in parts[i]
    ensures Split(Join([c], parts), c) == parts
  {
    if |parts| == 1 {
      SplitOfPlain(parts[0], [], c);
      assert parts[0] + [] == parts[0];
      assert Split([], c) == [""];
    } else {
      var rest := Join([c], parts[1..]);
      SplitJoin(parts[1..], c);
      assert Join([c], parts) == parts[0] + ([c] + rest);
      SplitOfPlain(parts[0], [c] + rest, c);
      var t := [c] + rest;
      assert t[0] == c && t[1..] == rest;
      assert Split(t, c) == [""] + Split(rest, c);
      assert parts[0] + "" == parts[0];
      assert parts == [parts[0]] + parts[1..];
    }
  }

  /** A separator-free prefix is glued to the first field of what follows. */
  lemma {:induction false} SplitOfPlain(w: string, t: string, c: char)
    requires c !in w
    ensures Split(w + t, c) == [w + Split(t, c)[0]] + Split(t, c)[1..]
  {
    if w == [] {
      assert w + t == t;
      var r := Split(t, c);
      assert r == [r[0]] + r[1..];
      assert w + r[0] == r[0];
    } else {
      assert (w + t)[0] == w[0] && (w + t)[1..] == w[1..] + t;
      SplitOfPlain(w[1..], t, c);
      assert [w[0]] + (w[1..] + Split(t, c)[0]) == w + Split(t, c)[0];
    }
  }

  /** `list.remove(x)` on a list that holds `x`: the first occurrence goes. */
  function RemoveFirst<T(==)>(s: seq<T>, x: T): (r: seq<T>)
    ensures x in s ==> |r| == |s| - 1
    ensures x !in s ==> r == s
  {
    if s == [] then []
    else
      assert s == [s[0]] + s[1..];
      if s[0] == x then s[1..]
      else [s[0]] + RemoveFirst(s[1..], x)
  }

  /** `list.remove(x)` takes out one occurrence of `x` and nothing else. */
  lemma {:induction false} RemoveFirstCount<T>(s: seq<T>, x: T)
    requires x in s
    ensures multiset(RemoveFirst(s, x)) == multiset(s) - multiset{x}
  {
    assert s == [s[0]] + s[1..];
    if s[0] != x {
      RemoveFirstCount(s[1..], x);
      calc {
        multiset(RemoveFirst(s, x));
        multiset([s[0]] + RemoveFirst(s[1..], x));
        multiset([s[0]]) + (multiset(s[1..]) - multiset{x});
        multiset(s) - multiset{x};
      }
    }
  }

  lemma RemoveFirstOfSnoc<T>(s: seq<T>, x: T)
    requires x !in s
    ensures RemoveFirst(s + [x], x) == s
    decreases |s|
  {
    if s != [] {
      assert (s + [x])[1..] == s[1..] + [x];
      RemoveFirstOfSnoc(s[1..], x);
    } else {
      assert s + [x] == [x];
    }
  }

  /** Removing `x` takes out its first occurrence, wherever it sits. */
  lemma {:induction false} RemoveFirstOfMiddle<T>(a: seq<T>, x: T, b: seq<T>)
    requires x !in a
    ensures RemoveFirst(a + [x] + b, x) == a + b
    decreases |a|
  {
    var s := a + [x] + b;
    if a != [] {
      assert a[0] in a;
      assert s[0] == a[0] != x;
      assert s[1..] == a[1..] + [x] + b;
      assert RemoveFirst(s, x) == [a[0]] + RemoveFirst(s[1..], x);
      RemoveFirstOfMiddle(a[1..], x, b);
      assert a + b == [a[0]] + (a[1..] + b);
    } else {
      assert a + [x] + b == [x] + b;
    }
  }

  /** One more element after a concatenation. */
  lemma AppendSnoc<T>(a: seq<T>, b: seq<T>, x: T)
    ensures a + b + [x] == a + (b + [x])
  {
  }

  /** `s.replace(c, '')` */
  function DeleteChar(s: string, c: char): (r: string)
    ensures c !in r
    ensures c !in s ==> r == s
  {
    if s == [] then ""
    else if s[0] == c then DeleteChar(s[1..], c)
    else [s[0]] + DeleteChar(s[1..], c)
  }

  predicate IsDigit(c: char)
  {
    '0' <= c <= '9'
  }

  predicate AllDigits(s: string)
  {
    forall i :: 0 <= i < |s| ==> IsDigit(s[i])
  }

  function DigitChar(d: nat): (c: char)
    requires d < 10
    ensures IsDigit(c) && c as int - '0' as int == d
  {
    "0123456789"[d]
  }

  /** `str(n)` for a non-negative integer: its decimal digits. */
  function ShowNat(n: nat): (s: string)
    decreases n
  {
    if n < 10 then [DigitChar(n)] else ShowNat(n / 10) + [DigitChar(n % 10)]
  }

  /** The value of a string of decimal digits, most significant first. */
  function DigitsValue(s: string): nat
    requires AllDigits(s)
  {
    if s == [] then 0
    else DigitsValue(s[..|s| - 1]) * 10 + (s[|s| - 1] as int - '0' as int)
  }

  /** `int(s)` restricted to what `str` of a non-negative integer can give
      back: one or more decimal digits. */
  function ParseNat(s: string): Option<nat>
  {
    if s != [] && AllDigits(s) then Some(DigitsValue(s)) else None
  }

  /** Decimal text is made of digits only, so it never holds a newline, a
      quote, a slash or a space, and never reads as the word `None`. */
  lemma {:induction false} ShowNatDigits(n: nat)
    ensures |ShowNat(n)| >= 1 && AllDigits(ShowNat(n))
    decreases n
  {
    if n >= 10 {
      ShowNatDigits(n / 10);
    }
  }

  /** `int(str(n)) == n` */
  lemma {:induction false} ParseShowNat(n: nat)
    ensures ParseNat(ShowNat(n)) == Some(n)
    decreases n
  {
    ShowNatDigits(n);
    if n >= 10 {
      ShowNatDigits(n / 10);
      ParseShowNat(n / 10);
      var s := ShowNat(n);
      var d := DigitChar(n % 10);
      assert s == ShowNat(n / 10) + [d];
      assert s[..|s| - 1] == ShowNat(n / 10);
      assert s[|s| - 1] == d;
      assert DigitsValue(s) == (n / 10) * 10 + n % 10;
    } else {
      assert ShowNat(n)[..0] == [];
    }
  }

  /** `str(i)` for any integer. */
  function ShowInt(i: int): string
  {
    if i < 0 then "-" + ShowNat(-i) else ShowNat(i)
  }

  /** `int(s)`: an optional sign followed by one or more decimal digits. */
  function ParseInt(s: string): Option<int>
  {
    if |s| > 0 && (s[0] == '-' || s[0] == '+') then
      var m := ParseNat(s[1..]);
      if m.None? then None
      else if s[0] == '-' then Some(0 - m.value)
      else Some(m.value as int)
    else
      var m := ParseNat(s);
      if m.None? then None else Some(m.value as int)
  }

  lemma ParseShowInt(i: int)
    ensures ParseInt(ShowInt(i)) == Some(i)
  {
    if i < 0 {
      var t := ShowNat(-i);
      ParseShowNat(-i);
      var s := "-" + t;
      assert s[0] == '-' && s[1..] == t;
      assert ShowInt(i) == s;
    } else {
      var t := ShowNat(i);
      ParseShowNat(i);
      ShowNatDigits(i);
      assert IsDigit(t[0]);
      assert ShowInt(i) == t;
    }
  }
}

/** The parts of java.lang.String and java.util.StringTokenizer that the
    driver's URL handling relies on, with the properties that pin them down. */
module JavaText {
  import opened Outcomes

  /** String.indexOf(ch): the index of the first occurrence of c, or -1. */
  function IndexOf(s: string, c: char): (i: int)
    ensures -1 <= i < |s|
    ensures i == -1 <==> c !in s
    ensures i >= 0 ==> s[i] == c && c !in s[..i]
    decreases |s|
  {
    if |s| == 0 then -1
    else if s[0] == c then 0
    else
      var j := IndexOf(s[1..], c);
      assert s == [s[0]] + s[1..];
      if j == -1 then -1
      else
        assert s[..j + 1] == [s[0]] + s[1..][..j];
        j + 1
  }

  /** String.startsWith(prefix). */
  predicate StartsWith(s: string, prefix: string) {
    |prefix| <= |s| && s[..|prefix|] == prefix
  }

  /** Every character of s is sep. */
  predicate AllSeparators(s: string, sep: char) {
    forall i :: 0 <= i < |s| ==> s[i] == sep
  }

  /** The pieces of s between occurrences of sep, empty pieces included:
      "a//b" gives ["a", "", "b"], "" gives [""]. */
  function SplitAll(s: string, sep: char): (parts: seq<string>)
    ensures |parts| >= 1
    ensures forall i :: 0 <= i < |parts| ==> sep !in parts[i]
    decreases |s|
  {
    if |s| == 0 then [""]
    else if s[0] == sep then [""] + SplitAll(s[1..], sep)
    else
      var rest := SplitAll(s[1..], sep);
      [[s[0]] + rest[0]] + rest[1..]
  }

  /** The pieces glued back together with sep between neighbours. */
  function Join(parts: seq<string>, sep: char): string
    decreases |parts|
  {
    if |parts| == 0 then ""
    else if |parts| == 1 then parts[0]
    else parts[0] + [sep] + Join(parts[1..], sep)
  }

  /** Joining the pieces gives back the string that was split. */
  lemma {:induction false} SplitAllJoin(s: string, sep: char)
    ensures Join(SplitAll(s, sep), sep) == s
    decreases |s|
  {
    if |s| == 0 {
    } else if s[0] == sep {
      SplitAllJoin(s[1..], sep);
      var rest := SplitAll(s[1..], sep);
      assert ([""] + rest)[1..] == rest;
      assert s == [sep] + s[1..];
    } else {
      SplitAllJoin(s[1..], sep);
      var rest := SplitAll(s[1..], sep);
      var parts := [[s[0]] + rest[0]] + rest[1..];
      assert s == [s[0]] + s[1..];
      if |rest| > 1 {
        assert parts[1..] == rest[1..];
      }
    }
  }

  /** A string without the separator is a single piece. */
  lemma {:induction false} SplitAllWithoutSeparator(s: string, sep: char)
    requires sep !in s
    ensures SplitAll(s, sep) == [s]
    decreases |s|
  {
    if |s| > 0 {
      SplitAllWithoutSeparator(s[1..], sep);
      assert s == [s[0]] + s[1..];
    }
  }

  /** Splitting distributes over a separator between two strings. */
  lemma {:induction false} SplitAllAppend(a: string, b: string, sep: char)
    ensures SplitAll(a + [sep] + b, sep) == SplitAll(a, sep) + SplitAll(b, sep)
    decreases |a|
  {
    var s := a + [sep] + b;
    if |a| == 0 {
      assert s == [sep] + b;
      assert s[1..] == b;
    } else {
      assert s[0] == a[0];
      assert s[1..] == a[1..] + [sep] + b;
      SplitAllAppend(a[1..], b, sep);
      if a[0] != sep {
        var ra := SplitAll(a[1..], sep);
        var rb := SplitAll(b, sep);
        assert (ra + rb)[0] == ra[0];
        assert (ra + rb)[1..] == ra[1..] + rb;
      }
    }
  }

  /** Splitting undoes joining pieces that hold no separator. */
  lemma {:induction false} JoinSplitAll(parts: seq<string>, sep: char)
    requires |parts| >= 1
    requires forall i :: 0 <= i < |parts| ==> sep !in parts[i]
    ensures SplitAll(Join(parts, sep), sep) == parts
    decreases |parts|
  {
    if |parts| == 1 {
      SplitAllWithoutSeparator(parts[0], sep);
    } else {
      JoinSplitAll(parts[1..], sep);
      SplitAllWithoutSeparator(parts[0], sep);
      SplitAllAppend(parts[0], Join(parts[1..], sep), sep);
      assert parts == [parts[0]] + parts[1..];
    }
  }

  /** Joining one more piece adds a separator and the piece. */
  lemma {:induction false} JoinSnoc(parts: seq<string>, last: string, sep: char)
    ensures Join(parts + [last], sep) == if |parts| == 0 then last else Join(parts, sep) + [sep] + last
    decreases |parts|
  {
    if |parts| > 1 {
      JoinSnoc(parts[1..], last, sep);
      assert (parts + [last])[1..] == parts[1..] + [last];
    } else if |parts| == 1 {
      assert (parts + [last])[1..] == [last];
    }
  }

  /** The pieces without the empty pieces at the end (String.split with limit 0). */
  function DropTrailingEmpty(parts: seq<string>): (kept: seq<string>)
    ensures kept <= parts
    ensures |kept| > 0 ==> kept[|kept| - 1] != ""
    ensures forall i :: |kept| <= i < |parts| ==> parts[i] == ""
    decreases |parts|
  {
    if |parts| == 0 || parts[|parts| - 1] != "" then parts
    else DropTrailingEmpty(parts[..|parts| - 1])
  }

  /** Dropping trailing empty pieces loses only trailing separators. */
  lemma {:induction false} DropTrailingEmptyJoin(parts: seq<string>, sep: char)
    ensures Join(DropTrailingEmpty(parts), sep) <= Join(parts, sep)
    ensures AllSeparators(Join(parts, sep)[|Join(DropTrailingEmpty(parts), sep)|..], sep)
    decreases |parts|
  {
    if |parts| == 0 || parts[|parts| - 1] != "" {
    } else {
      var init := parts[..|parts| - 1];
      assert parts == init + [""];
      DropTrailingEmptyJoin(init, sep);
      JoinSnoc(init, "", sep);
      var kept := Join(DropTrailingEmpty(init), sep);
      var whole := Join(init, sep);
      if |init| > 0 {
        assert Join(parts, sep) == whole + [sep];
        assert Join(parts, sep)[|kept|..] == whole[|kept|..] + [sep];
      }
    }
  }

  /** String.split(regex) for a one-character regex with no special meaning
      and limit 0: a string without the separator is returned whole (even the
      empty string); otherwise all pieces are taken and trailing empty ones
      are removed, so "/" gives [] and "a/" gives ["a"]. */
  function Split(s: string, sep: char): (parts: seq<string>)
    ensures forall i :: 0 <= i < |parts| ==> sep !in parts[i]
    ensures sep in s && |parts| > 0 ==> parts[|parts| - 1] != ""
  {
    if sep !in s then [s] else DropTrailingEmpty(SplitAll(s, sep))
  }

  /** Joining the pieces of Split gives the string up to its trailing separators. */
  lemma SplitJoin(s: string, sep: char)
    ensures Join(Split(s, sep), sep) <= s
    ensures AllSeparators(s[|Join(Split(s, sep), sep)|..], sep)
  {
    if sep in s {
      SplitAllJoin(s, sep);
      DropTrailingEmptyJoin(SplitAll(s, sep), sep);
    }
  }

  /** One separator between two separator-free strings, the second non-empty,
      splits into exactly those two. */
  lemma SplitTwo(a: string, b: string, sep: char)
    requires sep !in a && sep !in b && b != ""
    ensures Split(a + [sep] + b, sep) == [a, b]
    ensures Split(a + [sep] + b + [sep], sep) == [a, b]
  {
    SplitAllWithoutSeparator(a, sep);
    SplitAllWithoutSeparator(b, sep);
    SplitAllAppend(a, b, sep);
    assert (a + [sep] + b)[|a|] == sep;
    SplitAllAppend(a + [sep] + b, "", sep);
    assert a + [sep] + b + [sep] == a + [sep] + b + [sep] + "";
    assert (a + [sep] + b + [sep])[|a|] == sep;
  }

  /** The two halves of String.split(regex, 2) for a one-character regex:
      the text before the first separator, and the rest if there is one. */
  datatype Halves = Halves(head: string, tail: Option<string>)

  function SplitFirst(s: string, sep: char): (h: Halves)
    ensures sep !in h.head
    ensures h.tail.None? ==> h.head == s
    ensures h.tail.Some? ==> s == h.head + [sep] + h.tail.value
  {
    var i := IndexOf(s, sep);
    if i < 0 then Halves(s, None)
    else
      assert s == s[..i] + [sep] + s[i + 1..];
      Halves(s[..i], Some(s[i + 1..]))
  }

  /** The first separator decides the halves, whatever follows it. */
  lemma SplitFirstAt(head: string, tail: string, sep: char)
    requires sep !in head
    ensures SplitFirst(head + [sep] + tail, sep) == Halves(head, Some(tail))
  {
    var s := head + [sep] + tail;
    var i := IndexOf(s, sep);
    assert s[|head|] == sep;
    assert s[..|head|] == head;
    assert i == |head|;
    assert s[i + 1..] == tail;
  }

  /** The length of the token at the start of s: the characters before the
      first delimiter. */
  function TokenLength(s: string, delim: char): (n: nat)
    ensures n <= |s|
    ensures delim !in s[..n]
    ensures n < |s| ==> s[n] == delim
    ensures |s| > 0 && s[0] != delim ==> n > 0
    decreases |s|
  {
    if |s| == 0 || s[0] == delim then 0
    else
      var m := TokenLength(s[1..], delim);
      assert s[..m + 1] == [s[0]] + s[1..][..m];
      m + 1
  }

  /** The tokens a java.util.StringTokenizer with one delimiter hands out, in
      order: it skips delimiters, then takes the longest run without one. */
  function Tokenize(s: string, delim: char): (tokens: seq<string>)
    ensures forall i :: 0 <= i < |tokens| ==> tokens[i] != "" && delim !in tokens[i]
    decreases |s|
  {
    if |s| == 0 then []
    else if s[0] == delim then Tokenize(s[1..], delim)
    else
      var n := TokenLength(s, delim);
      [s[..n]] + Tokenize(s[n..], delim)
  }

  /** The non-empty pieces, in order. */
  function NonEmpty(parts: seq<string>): seq<string>
    decreases |parts|
  {
    if |parts| == 0 then []
    else (if parts[0] == "" then [] else [parts[0]]) + NonEmpty(parts[1..])
  }

  lemma {:induction false} NonEmptyAppend(a: seq<string>, b: seq<string>)
    ensures NonEmpty(a + b) == NonEmpty(a) + NonEmpty(b)
    decreases |a|
  {
    if |a| > 0 {
      NonEmptyAppend(a[1..], b);
      assert (a + b)[1..] == a[1..] + b;
    } else {
      assert a + b == b;
    }
  }

  /** The tokenizer's tokens are exactly the non-empty pieces between delimiters. */
  lemma {:induction false} TokenizeIsNonEmptySplit(s: string, delim: char)
    ensures Tokenize(s, delim) == NonEmpty(SplitAll(s, delim))
    decreases |s|
  {
    if |s| == 0 {
    } else if s[0] == delim {
      TokenizeIsNonEmptySplit(s[1..], delim);
      assert ([""] + SplitAll(s[1..], delim))[1..] == SplitAll(s[1..], delim);
    } else {
      var n := TokenLength(s, delim);
      var token := s[..n];
      if n == |s| {
        assert token == s;
        SplitAllWithoutSeparator(s, delim);
        assert s[n..] == [];
      } else {
        var after := s[n + 1..];
        assert s == token + [delim] + after;
        SplitAllWithoutSeparator(token, delim);
        SplitAllAppend(token, after, delim);
        assert SplitAll(s, delim) == [token] + SplitAll(after, delim);
        assert ([token] + SplitAll(after, delim))[1..] == SplitAll(after, delim);
        assert s[n..][0] == delim && s[n..][1..] == after;
        TokenizeIsNonEmptySplit(after, delim);
      }
    }
  }

  /** Two delimiters in a row yield no empty token. */
  lemma TokenizeSkipsRepeatedDelimiter(a: string, b: string, delim: char)
    ensures Tokenize(a + [delim, delim] + b, delim) == Tokenize(a + [delim] + b, delim)
  {
    TokenizeIsNonEmptySplit(a + [delim, delim] + b, delim);
    TokenizeIsNonEmptySplit(a + [delim] + b, delim);
    assert a + [delim, delim] + b == a + [delim] + ([delim] + b);
    SplitAllAppend(a, [delim] + b, delim);
    SplitAllAppend(a, b, delim);
    assert ([delim] + b)[1..] == b;
    var tail := SplitAll(b, delim);
    assert ([""] + tail)[1..] == tail;
    NonEmptyAppend(SplitAll(a, delim), [""] + tail);
    NonEmptyAppend(SplitAll(a, delim), tail);
  }

  /** A trailing delimiter yields no empty token. */
  lemma TokenizeSkipsTrailingDelimiter(a: string, delim: char)
    ensures Tokenize(a + [delim], delim) == Tokenize(a, delim)
  {
    TokenizeIsNonEmptySplit(a + [delim], delim);
    TokenizeIsNonEmptySplit(a, delim);
    assert a + [delim] == a + [delim] + "";
    SplitAllAppend(a, "", delim);
    NonEmptyAppend(SplitAll(a, delim), [""]);
    assert NonEmpty([""]) == [];
    assert NonEmpty(SplitAll(a, delim)) + [] == NonEmpty(SplitAll(a, delim));
  }
}

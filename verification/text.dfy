/** Prefix, suffix and substring relations on strings, and the joining of
    words with single spaces that the command-line templates perform. */
module Text {

  predicate StartsWith(s: string, prefix: string) {
    |prefix| <= |s| && s[..|prefix|] == prefix
  }

  predicate EndsWith(s: string, suffix: string) {
    |suffix| <= |s| && s[|s| - |suffix|..] == suffix
  }

  /** `t` occurs in `s` starting at index `i`. */
  predicate OccursAt(s: string, t: string, i: int) {
    0 <= i && i + |t| <= |s| && s[i..i + |t|] == t
  }

  ghost predicate Contains(s: string, t: string) {
    exists i :: OccursAt(s, t, i)
  }

  lemma StartsWithConcat(a: string, b: string)
    ensures StartsWith(a + b, a)
  {
    assert (a + b)[..|a|] == a;
  }

  lemma EndsWithConcat(a: string, b: string)
    ensures EndsWith(a + b, b)
  {
    assert (a + b)[|a + b| - |b|..] == b;
  }

  lemma Associative(a: string, b: string, c: string)
    ensures a + (b + c) == a + b + c
  {
  }

  lemma EndsWithTrans(s: string, r: string, t: string)
    requires EndsWith(s, r) && EndsWith(r, t)
    ensures EndsWith(s, t)
  {
    assert s[|s| - |t|..] == s[|s| - |r|..][|r| - |t|..];
  }

  // ---------------------------------------------------------------------------
  // Words separated by single spaces.

  /** The words of `ws` with one space between neighbours. An empty word
      contributes nothing but its separators, so two empty words at the end
      leave two trailing spaces. */
  function JoinWords(ws: seq<string>): string {
    if |ws| == 0 then ""
    else if |ws| == 1 then ws[0]
    else ws[0] + " " + JoinWords(ws[1..])
  }

  lemma JoinWords3(a: string, b: string, c: string)
    ensures JoinWords([a, b, c]) == a + " " + b + " " + c
  {
    assert [a, b, c][1..] == [b, c];
    assert [b, c][1..] == [c];
    assert JoinWords([b, c]) == b + " " + c;
    Associative(a + " ", b + " ", c);
  }

  lemma JoinWords4(a: string, b: string, c: string, d: string)
    ensures JoinWords([a, b, c, d]) == a + " " + b + " " + c + " " + d
  {
    assert [a, b, c, d][1..] == [b, c, d];
    JoinWords3(b, c, d);
    Associative(a + " ", b + " " + c + " ", d);
    Associative(a + " ", b + " ", c);
    Associative(a + " " + b + " ", c + " ", d);
  }

  /** The index of the first `c` in `s`. */
  function IndexOf(s: string, c: char): (i: nat)
    requires c in s
    ensures i < |s| && s[i] == c && c !in s[..i]
  {
    if s[0] == c then 0
    else
      assert s == [s[0]] + s[1..];
      1 + IndexOf(s[1..], c)
  }

  /** Joining two non-empty word lists puts one space between their joins. */
  lemma {:induction false} JoinAppend(a: seq<string>, b: seq<string>)
    requires |a| > 0 && |b| > 0
    ensures JoinWords(a + b) == JoinWords(a) + " " + JoinWords(b)
  {
    if |a| == 1 {
      assert (a + b)[1..] == b;
    } else {
      assert (a + b)[1..] == a[1..] + b;
      JoinAppend(a[1..], b);
    }
  }

  /** A join that begins with two given words starts with them and a space. */
  lemma JoinStartsWithTwo(a: string, b: string, rest: seq<string>)
    requires |rest| > 0
    ensures StartsWith(JoinWords([a, b] + rest), a + " " + b + " ")
  {
    JoinAppend([a, b], rest);
    assert [a, b][1..] == [b];
    StartsWithConcat(a + " " + b + " ", JoinWords(rest));
  }

  /** A word followed by two empty words joins to the word and two spaces. */
  lemma PaddedWord(x: string)
    ensures JoinWords([x, "", ""]) == x + "  "
  {
    assert [x, "", ""][1..] == ["", ""];
    assert ["", ""][1..] == [""];
    assert JoinWords(["", ""]) == "" + " " + "";
    assert "" + " " + "" == " ";
    assert x + " " + " " == x + "  ";
  }

  /** A join that ends with a word and two empty words ends with that word
      and two spaces. */
  lemma JoinEndsWithPadded(init: seq<string>, x: string)
    requires |init| > 0
    ensures EndsWith(JoinWords(init + [x, "", ""]), " " + x + "  ")
  {
    var j := JoinWords(init);
    JoinAppend(init, [x, "", ""]);
    PaddedWord(x);
    Associative(j, " ", x + "  ");
    Associative(" ", x, "  ");
    EndsWithConcat(j, " " + x + "  ");
  }

  /** Joining splits at any inner word boundary. */
  lemma JoinSplitAt(ws: seq<string>, i: int)
    requires 0 < i < |ws|
    ensures JoinWords(ws) == JoinWords(ws[..i]) + " " + JoinWords(ws[i..])
  {
    assert ws == ws[..i] + ws[i..];
    JoinAppend(ws[..i], ws[i..]);
  }

  /** The join of a word list ends with a space and the join of any proper tail. */
  lemma JoinTail(ws: seq<string>, k: int)
    requires 0 < k < |ws|
    ensures EndsWith(JoinWords(ws), " " + JoinWords(ws[k..]))
  {
    JoinSplitAt(ws, k);
    Associative(JoinWords(ws[..k]), " ", JoinWords(ws[k..]));
    EndsWithConcat(JoinWords(ws[..k]), " " + JoinWords(ws[k..]));
  }

  /** The join of the first `k` words is a prefix of the join of all. */
  lemma JoinPrefix(ws: seq<string>, k: int)
    requires 0 < k <= |ws|
    ensures StartsWith(JoinWords(ws), JoinWords(ws[..k]))
  {
    if k < |ws| {
      JoinSplitAt(ws, k);
      Associative(JoinWords(ws[..k]), " ", JoinWords(ws[k..]));
      StartsWithConcat(JoinWords(ws[..k]), " " + JoinWords(ws[k..]));
    } else {
      assert ws[..k] == ws;
    }
  }

  /** The join of the words from index `k` on is a suffix of the join of all. */
  lemma JoinSuffix(ws: seq<string>, k: int)
    requires 0 <= k < |ws|
    ensures EndsWith(JoinWords(ws), JoinWords(ws[k..]))
  {
    if k > 0 {
      JoinSplitAt(ws, k);
      EndsWithConcat(JoinWords(ws[..k]) + " ", JoinWords(ws[k..]));
    } else {
      assert ws[k..] == ws;
    }
  }

  lemma OccursInSuffix(s: string, r: string, t: string)
    requires EndsWith(s, r) && StartsWith(r, t)
    ensures OccursAt(s, t, |s| - |r|)
    ensures Contains(s, t)
  {
    assert s[|s| - |r|..][..|t|] == t;
    assert s[|s| - |r|..|s| - |r| + |t|] == t;
    assert OccursAt(s, t, |s| - |r|);
  }

  /** A run of consecutive words appears, joined, inside the joined whole. */
  lemma JoinSliceOccurs(ws: seq<string>, i: int, j: int)
    requires 0 <= i < j <= |ws|
    ensures Contains(JoinWords(ws), JoinWords(ws[i..j]))
  {
    var right := ws[i..];
    assert right[..j - i] == ws[i..j];
    JoinPrefix(right, j - i);
    JoinSuffix(ws, i);
    OccursInSuffix(JoinWords(ws), JoinWords(right), JoinWords(ws[i..j]));
  }
}

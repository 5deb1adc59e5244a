/** Python's `str.strip()` and `str.split()` (both without arguments) over
    strings of Unicode scalar values, as the property-file parser and the
    command lines use them. */
module Text {

  /** The characters Python treats as whitespace in `strip()` and `split()`. */
  predicate IsSpace(c: char)
  {
    || ('\U{0009}' <= c <= '\U{000D}')
    || ('\U{001C}' <= c <= '\U{0020}')
    || c == '\U{0085}' || c == '\U{00A0}' || c == '\U{1680}'
    || ('\U{2000}' <= c <= '\U{200A}')
    || c == '\U{2028}' || c == '\U{2029}' || c == '\U{202F}'
    || c == '\U{205F}' || c == '\U{3000}'
  }

  predicate AllSpace(s: string)
  {
    forall i :: 0 <= i < |s| ==> IsSpace(s[i])
  }

  /** A word of `split()`: non-empty and free of whitespace. */
  predicate IsWord(w: string)
  {
    |w| > 0 && forall i :: 0 <= i < |w| ==> !IsSpace(w[i])
  }

  /** `s.strip()`: `s` without whitespace at either end. */
  function Strip(s: string): (r: string)
    ensures |r| <= |s|
    ensures r == [] || (!IsSpace(r[0]) && !IsSpace(r[|r| - 1]))
    decreases |s|
  {
    if |s| > 0 && IsSpace(s[0]) then Strip(s[1..])
    else if |s| > 0 && IsSpace(s[|s| - 1]) then Strip(s[..|s| - 1])
    else s
  }

  lemma AllSpaceAppend(a: string, b: string)
    requires AllSpace(a) && AllSpace(b)
    ensures AllSpace(a + b)
  {
    forall k | 0 <= k < |a + b| ensures IsSpace((a + b)[k]) {
      if k < |a| { assert (a + b)[k] == a[k]; } else { assert (a + b)[k] == b[k - |a|]; }
    }
  }

  /** What `strip()` removes is whitespace, and what it keeps is a
      contiguous piece of the string. */
  lemma {:induction false} StripPieces(s: string) returns (front: string, back: string)
    ensures s == front + Strip(s) + back
    ensures AllSpace(front) && AllSpace(back)
    decreases |s|
  {
    if |s| > 0 && IsSpace(s[0]) {
      var f, b := StripPieces(s[1..]);
      front := StripPiecesFront(s, f, b);
      back := b;
    } else if |s| > 0 && IsSpace(s[|s| - 1]) {
      var f, b := StripPieces(s[..|s| - 1]);
      back := StripPiecesBack(s, f, b);
      front := f;
    } else {
      front, back := [], [];
      assert s == [] + s + [];
    }
  }

  lemma StripPiecesFront(s: string, f: string, b: string) returns (front: string)
    requires |s| > 0 && IsSpace(s[0])
    requires s[1..] == f + Strip(s[1..]) + b
    requires AllSpace(f)
    ensures front == [s[0]] + f
    ensures s == front + Strip(s) + b && AllSpace(front)
  {
    assert Strip(s) == Strip(s[1..]);
    AllSpaceAppend([s[0]], f);
    front := [s[0]] + f;
    calc {
      s;
      [s[0]] + s[1..];
      [s[0]] + (f + Strip(s) + b);
      front + Strip(s) + b;
    }
  }

  lemma StripPiecesBack(s: string, f: string, b: string) returns (back: string)
    requires |s| > 0 && !IsSpace(s[0]) && IsSpace(s[|s| - 1])
    requires s[..|s| - 1] == f + Strip(s[..|s| - 1]) + b
    requires AllSpace(b)
    ensures back == b + [s[|s| - 1]]
    ensures s == f + Strip(s) + back && AllSpace(back)
  {
    assert Strip(s) == Strip(s[..|s| - 1]);
    AllSpaceAppend(b, [s[|s| - 1]]);
    back := b + [s[|s| - 1]];
    calc {
      s;
      s[..|s| - 1] + [s[|s| - 1]];
      (f + Strip(s) + b) + [s[|s| - 1]];
      f + Strip(s) + back;
    }
  }

  /** Length of the word at the front of `s`. */
  function WordEnd(s: string): (n: nat)
    requires |s| > 0 && !IsSpace(s[0])
    ensures 0 < n <= |s|
    decreases |s|
  {
    if |s| == 1 || IsSpace(s[1]) then 1 else 1 + WordEnd(s[1..])
  }

  /** The word at the front of `s` runs up to the first whitespace. */
  lemma {:induction false} WordEndIsWord(s: string)
    requires |s| > 0 && !IsSpace(s[0])
    ensures IsWord(s[..WordEnd(s)])
    ensures WordEnd(s) == |s| || IsSpace(s[WordEnd(s)])
    decreases |s|
  {
    if !(|s| == 1 || IsSpace(s[1])) {
      WordEndIsWord(s[1..]);
      var n := WordEnd(s);
      assert s[..n] == [s[0]] + s[1..][..n - 1];
      assert n == |s| || s[n] == s[1..][n - 1];
    }
  }

  /** `s.split()`: the maximal runs of non-whitespace characters, in order. */
  function Words(s: string): seq<string>
    decreases |s|
  {
    if |s| == 0 then []
    else if IsSpace(s[0]) then Words(s[1..])
    else
      var n := WordEnd(s);
      [s[..n]] + Words(s[n..])
  }

  /** Every piece `split()` returns is a word, and it returns nothing
      exactly for a string of whitespace. */
  lemma {:induction false} WordsAreWords(s: string)
    ensures forall i :: 0 <= i < |Words(s)| ==> IsWord(Words(s)[i])
    ensures Words(s) == [] <==> AllSpace(s)
    decreases |s|
  {
    if |s| == 0 {
    } else if IsSpace(s[0]) {
      WordsAreWords(s[1..]);
      assert AllSpace(s) <==> AllSpace(s[1..]) by {
        if AllSpace(s[1..]) {
          forall k | 0 <= k < |s| ensures IsSpace(s[k]) {
            if k > 0 { assert s[k] == s[1..][k - 1]; }
          }
        }
      }
    } else {
      var n := WordEnd(s);
      WordEndIsWord(s);
      WordsAreWords(s[n..]);
      var ws := Words(s);
      assert ws == [s[..n]] + Words(s[n..]);
      forall i | 0 <= i < |ws| ensures IsWord(ws[i]) {
        if i > 0 { assert ws[i] == Words(s[n..])[i - 1]; }
      }
    }
  }

  /** The words of `ws` glued together with no separator (Python's
      repeated `key += word`). */
  function Concat(ws: seq<string>): string
  {
    if |ws| == 0 then "" else Concat(ws[..|ws| - 1]) + ws[|ws| - 1]
  }

  /** The words of `ws` joined by single spaces (`" ".join(ws)`). */
  function Unwords(ws: seq<string>): string
  {
    if |ws| == 0 then ""
    else if |ws| == 1 then ws[0]
    else ws[0] + " " + Unwords(ws[1..])
  }

  lemma WordsOfSpacePrefix(s: string)
    requires |s| > 0 && IsSpace(s[0])
    ensures Words(s) == Words(s[1..])
  {
  }

  /** A word followed by nothing or by whitespace splits off as one word. */
  lemma {:induction false} WordsOfWordThen(w: string, rest: string)
    requires IsWord(w)
    requires rest == [] || IsSpace(rest[0])
    ensures Words(w + rest) == [w] + Words(rest)
  {
    var s := w + rest;
    assert s[0] == w[0];
    WordEndOfWordThen(w, rest);
    assert Words(s) == [s[..|w|]] + Words(s[|w|..]);
    assert s[..|w|] == w;
    assert s[|w|..] == rest;
  }

  lemma {:induction false} WordEndOfWordThen(w: string, rest: string)
    requires IsWord(w)
    requires rest == [] || IsSpace(rest[0])
    ensures |w + rest| > 0 && !IsSpace((w + rest)[0])
    ensures WordEnd(w + rest) == |w|
    decreases |w|
  {
    var s := w + rest;
    assert s[0] == w[0];
    if |w| == 1 {
      if |s| > 1 {
        assert s[1] == rest[0];
      }
    } else {
      assert s[1] == w[1];
      assert s[1..] == w[1..] + rest;
      WordEndOfWordThen(w[1..], rest);
    }
  }

  /** Splitting words joined by single spaces gives the words back. */
  lemma {:induction false} WordsOfUnwords(ws: seq<string>)
    requires forall i :: 0 <= i < |ws| ==> IsWord(ws[i])
    ensures Words(Unwords(ws)) == ws
    decreases |ws|
  {
    if |ws| == 0 {
    } else if |ws| == 1 {
      WordsOfWordThen(ws[0], "");
      assert ws[0] + "" == ws[0];
    } else {
      var tail := " " + Unwords(ws[1..]);
      assert Unwords(ws) == ws[0] + tail;
      WordsOfWordThen(ws[0], tail);
      WordsOfSpacePrefix(tail);
      assert tail[1..] == Unwords(ws[1..]);
      WordsOfUnwords(ws[1..]);
      assert ws == [ws[0]] + ws[1..];
    }
  }

  /** Words joined by single spaces have no whitespace at either end, so
      `strip()` leaves them as they are. */
  lemma {:induction false} UnwordsEnds(ws: seq<string>)
    requires |ws| > 0
    requires forall i :: 0 <= i < |ws| ==> IsWord(ws[i])
    ensures |Unwords(ws)| > 0
    ensures !IsSpace(Unwords(ws)[0])
    ensures !IsSpace(Unwords(ws)[|Unwords(ws)| - 1])
    decreases |ws|
  {
    if |ws| > 1 {
      UnwordsEnds(ws[1..]);
      var u := Unwords(ws);
      assert u == ws[0] + " " + Unwords(ws[1..]);
      assert u[0] == ws[0][0];
      assert u[|u| - 1] == Unwords(ws[1..])[|Unwords(ws[1..])| - 1];
    }
  }

  lemma {:induction false} StripUnchanged(s: string)
    requires s == [] || (!IsSpace(s[0]) && !IsSpace(s[|s| - 1]))
    ensures Strip(s) == s
  {
  }

  /** `strip()` then `split()` of words joined by single spaces gives the
      words back. */
  lemma {:induction false} WordsOfStripUnwords(ws: seq<string>)
    requires forall i :: 0 <= i < |ws| ==> IsWord(ws[i])
    ensures Words(Strip(Unwords(ws))) == ws
  {
    if |ws| > 0 {
      UnwordsEnds(ws);
    }
    StripUnchanged(Unwords(ws));
    WordsOfUnwords(ws);
  }

  /** A word that ends where a whitespace character follows is not
      affected by what comes after that character. */
  lemma {:induction false} WordEndBeforeSpace(a: string, t: string)
    requires |a| > 0 && !IsSpace(a[0])
    requires |t| > 0 && IsSpace(t[0])
    ensures (a + t)[0] == a[0]
    ensures WordEnd(a + t) == WordEnd(a)
    decreases |a|
  {
    var s := a + t;
    assert s[0] == a[0];
    if |a| == 1 {
      assert s[1] == t[0];
    } else {
      assert s[1] == a[1];
      if !IsSpace(a[1]) {
        assert s[1..] == a[1..] + t;
        WordEndBeforeSpace(a[1..], t);
      }
    }
  }

  /** Splitting text made of two parts joined by one whitespace character
      gives the words of the first part followed by those of the second. */
  lemma {:induction false} WordsSplitAtSpace(a: string, c: char, b: string)
    requires IsSpace(c)
    ensures Words(a + [c] + b) == Words(a) + Words(b)
    decreases |a|
  {
    if |a| == 0 {
      assert a + [c] + b == [c] + b;
      assert ([c] + b)[1..] == b;
    } else if IsSpace(a[0]) {
      WordsSplitAtSpace(a[1..], c, b);
      SplitAtSpaceSkip(a, c, b);
    } else {
      var n := WordEnd(a);
      WordsSplitAtSpace(a[n..], c, b);
      SplitAtSpaceWord(a, c, b);
    }
  }

  lemma SplitAtSpaceSkip(a: string, c: char, b: string)
    requires |a| > 0 && IsSpace(a[0])
    requires Words(a[1..] + [c] + b) == Words(a[1..]) + Words(b)
    ensures Words(a + [c] + b) == Words(a) + Words(b)
  {
    SkipSlices(a, c, b);
  }

  /** Dropping the first character of `a + [c] + b` drops it from `a`. */
  lemma SkipSlices(a: string, c: char, b: string)
    requires |a| > 0
    ensures (a + [c] + b)[0] == a[0]
    ensures (a + [c] + b)[1..] == a[1..] + [c] + b
  {
  }

  lemma SplitAtSpaceWord(a: string, c: char, b: string)
    requires |a| > 0 && !IsSpace(a[0]) && IsSpace(c)
    requires Words(a[WordEnd(a)..] + [c] + b) == Words(a[WordEnd(a)..]) + Words(b)
    ensures Words(a + [c] + b) == Words(a) + Words(b)
  {
    var s := a + [c] + b;
    assert s == a + ([c] + b);
    WordEndBeforeSpace(a, [c] + b);
    SplitSlices(a, c, b, WordEnd(a));
  }

  /** Cutting `a + [c] + b` inside `a` cuts `a` at the same place. */
  lemma SplitSlices(a: string, c: char, b: string, n: nat)
    requires 0 < n <= |a|
    ensures (a + [c] + b)[..n] == a[..n]
    ensures (a + [c] + b)[n..] == a[n..] + [c] + b
  {
  }

  /** A single word splits into itself. */
  lemma WordsOfWord(w: string)
    requires IsWord(w)
    ensures Words(w) == [w]
  {
    WordsOfWordThen(w, "");
    assert w + "" == w;
  }
}

/**
 * `RSSService.stripHtml`: `html.replace(/<[^>]*>/g, '').trim()`. The global
 * replace is a left-to-right scan: at a `<` with some `>` after it, the text
 * up to and including the first such `>` is dropped; any other character is
 * kept. `trim` then removes JavaScript white space and line terminators at
 * both ends.
 */
module RssText {

  /** The characters `String.prototype.trim` removes: WhiteSpace and LineTerminator of ECMAScript. */
  predicate IsJsWhitespace(c: char) {
    || c == '\t' || c == '\n' || c == '\U{000B}' || c == '\U{000C}' || c == '\r' || c == ' '
    || c == '\U{00A0}' || c == '\U{1680}' || ('\U{2000}' <= c <= '\U{200A}')
    || c == '\U{2028}' || c == '\U{2029}' || c == '\U{202F}' || c == '\U{205F}'
    || c == '\U{3000}' || c == '\U{FEFF}'
  }

  predicate AllWhitespace(s: string) {
    forall k :: 0 <= k < |s| ==> IsJsWhitespace(s[k])
  }

  /** The length of the white space at the start of `s`. */
  function LeadingWhitespace(s: string): (n: nat)
    ensures n <= |s| && AllWhitespace(s[..n])
    ensures n < |s| ==> !IsJsWhitespace(s[n])
    decreases |s|
  {
    if |s| > 0 && IsJsWhitespace(s[0]) then
      var m := LeadingWhitespace(s[1..]);
      assert s[..m + 1] == [s[0]] + s[1..][..m];
      m + 1
    else 0
  }

  /** The length of the white space at the end of `s`. */
  function TrailingWhitespace(s: string): (n: nat)
    ensures n <= |s| && AllWhitespace(s[|s| - n..])
    ensures n < |s| ==> !IsJsWhitespace(s[|s| - n - 1])
    decreases |s|
  {
    if |s| > 0 && IsJsWhitespace(s[|s| - 1]) then
      var m := TrailingWhitespace(s[..|s| - 1]);
      TrailingStep(s, m);
      m + 1
    else 0
  }

  /** One more white-space character at the end extends the counted suffix by one. */
  lemma TrailingStep(s: string, m: nat)
    requires |s| > 0 && IsJsWhitespace(s[|s| - 1]) && m <= |s| - 1
    requires AllWhitespace(s[..|s| - 1][|s| - 1 - m..])
    requires m < |s| - 1 ==> !IsJsWhitespace(s[..|s| - 1][|s| - 1 - m - 1])
    ensures AllWhitespace(s[|s| - (m + 1)..])
    ensures m + 1 < |s| ==> !IsJsWhitespace(s[|s| - (m + 1) - 1])
  {
    var w := s[..|s| - 1][|s| - 1 - m..];
    assert s[|s| - (m + 1)..] == w + [s[|s| - 1]];
    WhitespaceSnoc(w, s[|s| - 1]);
  }

  lemma WhitespaceSnoc(w: string, c: char)
    requires AllWhitespace(w) && IsJsWhitespace(c)
    ensures AllWhitespace(w + [c])
  {
    forall k | 0 <= k < |w| + 1 ensures IsJsWhitespace((w + [c])[k]) {
      if k < |w| {
        assert (w + [c])[k] == w[k];
      }
    }
  }

  /** Leading white space removed: what is left is a suffix of `s`, and everything cut was white space. */
  function TrimStart(s: string): (r: string)
    ensures |r| <= |s| && r == s[|s| - |r|..]
    ensures AllWhitespace(s[..|s| - |r|])
    ensures r == [] || !IsJsWhitespace(r[0])
  {
    s[LeadingWhitespace(s)..]
  }

  /** Trailing white space removed: what is left is a prefix of `s`, and everything cut was white space. */
  function TrimEnd(s: string): (r: string)
    ensures |r| <= |s| && r == s[..|r|]
    ensures AllWhitespace(s[|r|..])
    ensures r == [] || !IsJsWhitespace(r[|r| - 1])
  {
    s[..|s| - TrailingWhitespace(s)]
  }

  predicate NoOuterWhitespace(s: string) {
    s == [] || (!IsJsWhitespace(s[0]) && !IsJsWhitespace(s[|s| - 1]))
  }

  /** `String.prototype.trim`. */
  function Trim(s: string): (r: string)
    ensures NoOuterWhitespace(r)
  {
    TrimEnd(TrimStart(s))
  }

  /** The position of the first `c` in `s`. */
  function IndexOf(s: string, c: char): (k: nat)
    requires c in s
    ensures k < |s| && s[k] == c
    ensures forall j :: 0 <= j < k ==> s[j] != c
    decreases |s|
  {
    if s[0] == c then 0 else 1 + IndexOf(s[1..], c)
  }

  /** No `<` in `s` has a `>` anywhere after it, so the tag pattern matches nowhere. */
  predicate TagFree(s: string) {
    forall i, j :: 0 <= i < j < |s| && s[i] == '<' ==> s[j] != '>'
  }

  /**
   * `s.replace(/<[^>]*>/g, '')`. Afterwards no `<` is followed by a `>`: a
   * kept `<` had no `>` after it in the input, and the scan adds no characters.
   */
  function StripTags(s: string): (r: string)
    ensures TagFree(r)
    ensures forall c :: c in r ==> c in s
    decreases |s|
  {
    if |s| == 0 then []
    else if s[0] == '<' && '>' in s[1..] then
      var k := 1 + IndexOf(s[1..], '>') + 1;
      assert forall c :: c in s[k..] ==> c in s;
      StripTags(s[k..])
    else
      var t := StripTags(s[1..]);
      assert forall c :: c in s[1..] ==> c in s;
      ConsTagFree(s[0], t, s[1..]);
      [s[0]] + t
  }

  /** A character put before a tag-free string drawn from `rest` keeps it tag-free unless it opens a tag in `rest`. */
  lemma ConsTagFree(c: char, t: string, rest: string)
    requires TagFree(t) && (forall x :: x in t ==> x in rest)
    requires c != '<' || '>' !in rest
    ensures TagFree([c] + t)
  {
    var r := [c] + t;
    forall i, j | 0 <= i < j < |r| && r[i] == '<' ensures r[j] != '>' {
      if i == 0 {
        assert r[j] == t[j - 1] && t[j - 1] in t;
      } else {
        assert r[i] == t[i - 1] && r[j] == t[j - 1];
      }
    }
  }

  /**
   * `stripHtml`: the result holds no `<` followed later by `>` and has no
   * white space at either end.
   */
  function StripHtml(html: string): (r: string)
    ensures TagFree(r)
    ensures NoOuterWhitespace(r)
  {
    TrimTagFree(StripTags(html));
    Trim(StripTags(html))
  }

  /** Trimming a tag-free string leaves it tag-free. */
  lemma TrimTagFree(s: string)
    requires TagFree(s)
    ensures TagFree(Trim(s))
  {
    var t := TrimStart(s);
    TagFreeSlice(s, |s| - |t|, |s|);
    assert s[|s| - |t|..|s|] == t;
    TagFreeSlice(t, 0, |TrimEnd(t)|);
    assert t[0..|TrimEnd(t)|] == TrimEnd(t);
  }

  /**
   * `Trim(s)` is the contiguous piece of `s` from `i`, the length of the
   * leading white space, to `j`, with only white space cut from either end.
   */
  lemma TrimIsSlice(s: string)
    ensures var i := |s| - |TrimStart(s)|;
      var j := i + |Trim(s)|;
      && 0 <= i <= j <= |s| && Trim(s) == s[i..j]
      && AllWhitespace(s[..i]) && AllWhitespace(s[j..])
  {
    TrimSlice(s);
    TrailingCut(s);
  }

  lemma TrimSlice(s: string)
    ensures var t := TrimStart(s);
      0 <= |s| - |t| <= |s| - |t| + |TrimEnd(t)| <= |s| && TrimEnd(t) == s[|s| - |t|..|s| - |t| + |TrimEnd(t)|]
  {
    PrefixOfSuffix(s, TrimStart(s), TrimEnd(TrimStart(s)));
  }

  /** A prefix `u` of a suffix `t` of `s` is the piece of `s` where `t` starts. */
  lemma PrefixOfSuffix(s: string, t: string, u: string)
    requires |t| <= |s| && t == s[|s| - |t|..]
    requires |u| <= |t| && u == t[..|u|]
    ensures |s| - |t| + |u| <= |s| && u == s[|s| - |t|..|s| - |t| + |u|]
  {
  }

  lemma TrailingCut(s: string)
    ensures |s| - |TrimStart(s)| + |Trim(s)| <= |s|
    ensures AllWhitespace(s[|s| - |TrimStart(s)| + |Trim(s)|..])
  {
    var t := TrimStart(s);
    var i := |s| - |t|;
    var u := TrimEnd(t);
    assert Trim(s) == u;
    assert t[|u|..] == s[i + |u|..];
  }

  /** A string with nothing to trim is left alone, so trimming twice is trimming once. */
  lemma TrimIdempotent(s: string)
    ensures NoOuterWhitespace(s) ==> Trim(s) == s
    ensures Trim(Trim(s)) == Trim(s)
  {
    TrimUnchanged(Trim(s));
    if NoOuterWhitespace(s) {
      TrimUnchanged(s);
    }
  }

  lemma TrimUnchanged(s: string)
    requires NoOuterWhitespace(s)
    ensures Trim(s) == s
  {
    assert LeadingWhitespace(s) == 0;
    assert TrimStart(s) == s;
    assert TrailingWhitespace(s) == 0;
  }

  /** A whole tag `<...>` vanishes, with the scan going on right after its `>`. */
  lemma StripTagsDropsTag(inner: string, rest: string)
    requires '>' !in inner
    ensures StripTags("<" + inner + ">" + rest) == StripTags(rest)
  {
    var s := "<" + inner + ">" + rest;
    assert s[1..] == inner + ">" + rest;
    var k := IndexOf(s[1..], '>');
    assert s[1..][|inner|] == '>';
    assert k == |inner|;
    assert s[1 + k + 1..] == rest;
  }

  /** A character that does not open a tag is kept. */
  lemma StripTagsKeeps(c: char, rest: string)
    requires c != '<' || '>' !in rest
    ensures StripTags([c] + rest) == [c] + StripTags(rest)
  {
  }

  /** Where the tag pattern matches nowhere, the replace changes nothing. */
  lemma {:induction false} StripTagsTagFree(s: string)
    requires TagFree(s)
    ensures StripTags(s) == s
    decreases |s|
  {
    if |s| > 0 {
      if s[0] == '<' {
        assert '>' !in s[1..] by {
          forall j | 0 <= j < |s[1..]| ensures s[1..][j] != '>' {
            assert s[1..][j] == s[j + 1];
          }
        }
      }
      assert TagFree(s[1..]) by {
        forall i, j | 0 <= i < j < |s[1..]| && s[1..][i] == '<' ensures s[1..][j] != '>' {
          assert s[1..][i] == s[i + 1] && s[1..][j] == s[j + 1];
        }
      }
      StripTagsTagFree(s[1..]);
      assert s == [s[0]] + s[1..];
    }
  }

  /** A piece of a tag-free string is tag-free. */
  lemma TagFreeSlice(s: string, i: nat, j: nat)
    requires TagFree(s) && i <= j <= |s|
    ensures TagFree(s[i..j])
  {
  }

  /** Without any `<`, `stripHtml` only trims. */
  lemma StripHtmlWithoutTags(s: string)
    requires '<' !in s
    ensures StripHtml(s) == Trim(s)
  {
    assert TagFree(s);
    StripTagsTagFree(s);
  }

  /** Applying `stripHtml` twice gives what applying it once gives. */
  lemma StripHtmlIdempotent(s: string)
    ensures StripHtml(StripHtml(s)) == StripHtml(s)
  {
    var once := StripHtml(s);
    StripTagsTagFree(once);
    TrimIdempotent(once);
  }

  /** Text without `<` passes through the scan unchanged. */
  lemma {:induction false} StripTagsPlainPrefix(w: string, rest: string)
    requires '<' !in w
    ensures StripTags(w + rest) == w + StripTags(rest)
    decreases |w|
  {
    if |w| == 0 {
      assert w + rest == rest;
    } else {
      assert w[0] in w;
      assert forall c :: c in w[1..] ==> c in w;
      assert (w + rest)[1..] == w[1..] + rest;
      StripTagsKeeps(w[0], w[1..] + rest);
      assert [w[0]] + (w[1..] + rest) == w + rest;
      StripTagsPlainPrefix(w[1..], rest);
      assert [w[0]] + (w[1..] + StripTags(rest)) == w + StripTags(rest);
    }
  }

  /** Text between tags survives, the tags themselves do not: `<t1>x<t2>y<t3><t4>` becomes `xy`. */
  lemma StripTagsNested(s: string, t1: string, x: string, t2: string, y: string, t3: string, t4: string)
    requires '>' !in t1 && '>' !in t2 && '>' !in t3 && '>' !in t4 && '<' !in x && '<' !in y
    requires s == "<" + t1 + ">" + (x + ("<" + t2 + ">" + (y + ("<" + t3 + ">" + ("<" + t4 + ">")))))
    ensures StripTags(s) == x + y
  {
    var r4 := "<" + t4 + ">";
    var r3 := "<" + t3 + ">" + r4;
    var r2 := y + r3;
    var r1 := "<" + t2 + ">" + r2;
    var r0 := x + r1;
    assert StripTags(r4) == "" by {
      StripTagsDropsTag(t4, "");
      assert r4 + "" == r4;
    }
    assert StripTags(r3) == "" by {
      StripTagsDropsTag(t3, r4);
    }
    assert StripTags(r2) == y by {
      StripTagsPlainPrefix(y, r3);
    }
    assert StripTags(r1) == y by {
      StripTagsDropsTag(t2, r2);
    }
    assert StripTags(r0) == x + y by {
      StripTagsPlainPrefix(x, r1);
    }
    StripTagsDropsTag(t1, r0);
  }
}

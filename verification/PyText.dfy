/** The string operations of the extractors: whitespace splitting, stripping, and short type names. */
module PyText {
  import opened Prelude

  /** The characters that `str.split()` and `str.strip()` treat as whitespace. */
  predicate IsSpace(c: char)
  {
    var n := c as int;
    9 <= n <= 13 || 28 <= n <= 32 || n == 0x85 || n == 0xA0 || n == 0x1680
    || 0x2000 <= n <= 0x200A || n == 0x2028 || n == 0x2029 || n == 0x202F || n == 0x205F || n == 0x3000
  }

  function LStrip(s: string): string
  {
    if s != "" && IsSpace(s[0]) then LStrip(s[1..]) else s
  }

  function RStrip(s: string): string
  {
    if s != "" && IsSpace(s[|s| - 1]) then RStrip(s[..|s| - 1]) else s
  }

  function Strip(s: string): string
  {
    RStrip(LStrip(s))
  }

  predicate AllSpaces(s: string) { forall c :: c in s ==> IsSpace(c) }

  predicate AllOf(s: string, c: char) { forall d :: d in s ==> d == c }

  lemma {:induction false} LStripLead(lead: string, t: string)
    requires AllSpaces(lead) && (t != "" ==> !IsSpace(t[0]))
    ensures LStrip(lead + t) == t
  {
    if lead == "" {
      assert lead + t == t;
    } else {
      assert lead[0] in lead;
      assert forall c :: c in lead[1..] ==> c in lead;
      assert (lead + t)[1..] == lead[1..] + t;
      LStripLead(lead[1..], t);
    }
  }

  lemma {:induction false} RStripTrail(t: string, trail: string)
    requires AllSpaces(trail) && (t != "" ==> !IsSpace(t[|t| - 1]))
    ensures RStrip(t + trail) == t
  {
    if trail == "" {
      assert t + trail == t;
    } else {
      var n := |trail| - 1;
      assert trail[n] in trail;
      assert forall c :: c in trail[..n] ==> c in trail;
      assert (t + trail)[..|t + trail| - 1] == t + trail[..n];
      RStripTrail(t, trail[..n]);
    }
  }

  lemma {:induction false} LStripSplits(s: string) returns (lead: string)
    ensures s == lead + LStrip(s) && AllSpaces(lead)
    ensures LStrip(s) != "" ==> !IsSpace(LStrip(s)[0])
  {
    lead := "";
    if s != "" && IsSpace(s[0]) {
      var rest := LStripSplits(s[1..]);
      lead := [s[0]] + rest;
      assert s == [s[0]] + s[1..];
    }
  }

  lemma {:induction false} RStripSplits(s: string) returns (trail: string)
    ensures s == RStrip(s) + trail && AllSpaces(trail)
    ensures RStrip(s) != "" ==> !IsSpace(RStrip(s)[|RStrip(s)| - 1])
  {
    trail := "";
    if s != "" && IsSpace(s[|s| - 1]) {
      var init, last := s[..|s| - 1], s[|s| - 1];
      var rest := RStripSplits(init);
      trail := rest + [last];
      RegroupLast(s, init, RStrip(init), rest, last);
    }
  }

  lemma RegroupLast(s: string, init: string, kept: string, rest: string, last: char)
    requires s != "" && init == s[..|s| - 1] && last == s[|s| - 1] && init == kept + rest
    ensures s == kept + (rest + [last])
  {
  }

  /** `strip()` takes away the whitespace at both ends and nothing else. */
  lemma StripExact(s: string) returns (lead: string, trail: string)
    ensures s == lead + Strip(s) + trail && AllSpaces(lead) && AllSpaces(trail)
    ensures Strip(s) != "" ==> !IsSpace(Strip(s)[0]) && !IsSpace(Strip(s)[|Strip(s)| - 1])
  {
    lead := LStripSplits(s);
    trail := RStripSplits(LStrip(s));
    assert Strip(s) != "" ==> Strip(s)[0] == LStrip(s)[0];
  }

  lemma StripOf(lead: string, w: string, trail: string)
    requires AllSpaces(lead) && AllSpaces(trail) && (w != "" ==> !IsSpace(w[0]) && !IsSpace(w[|w| - 1]))
    ensures Strip(lead + w + trail) == w
  {
    if w == "" {
      BlankStrips(lead + trail);
      assert lead + w + trail == lead + trail;
    } else {
      assert lead + w + trail == lead + (w + trail);
      LStripLead(lead, w + trail);
      RStripTrail(w, trail);
    }
  }

  lemma BlankStrips(s: string)
    requires AllSpaces(s)
    ensures Strip(s) == ""
  {
    LStripLead(s, "");
    assert s + "" == s;
  }

  /** `rstrip(c)` for a single character. */
  function RStripChar(s: string, c: char): string
  {
    if s != "" && s[|s| - 1] == c then RStripChar(s[..|s| - 1], c) else s
  }

  /** `split(c)[-1]`: the text after the last `c`. */
  function AfterLast(s: string, c: char): (r: string)
    ensures c !in r
    ensures c !in s ==> r == s
    ensures forall d :: d in r ==> d in s
  {
    if s == "" then ""
    else if s[|s| - 1] == c then ""
    else AfterLast(s[..|s| - 1], c) + [s[|s| - 1]]
  }

  /** `split(c, 1)[0]`: the text before the first `c`. */
  function BeforeFirst(s: string, c: char): (r: string)
    ensures c !in r
    ensures r <= s
  {
    if s == "" || s[0] == c then "" else [s[0]] + BeforeFirst(s[1..], c)
  }

  function WordLength(s: string): (n: nat)
    ensures n <= |s|
    ensures forall k :: 0 <= k < n ==> !IsSpace(s[k])
    ensures n == |s| || IsSpace(s[n])
  {
    if s == "" || IsSpace(s[0]) then 0 else 1 + WordLength(s[1..])
  }

  /** The code points that Python counts as whitespace. */
  lemma WhitespaceIs(c: char)
    ensures IsSpace(c) <==> c as int in {9, 10, 11, 12, 13, 28, 29, 30, 31, 32, 0x85, 0xA0, 0x1680,
                                         0x2000, 0x2001, 0x2002, 0x2003, 0x2004, 0x2005, 0x2006, 0x2007, 0x2008, 0x2009, 0x200A,
                                         0x2028, 0x2029, 0x202F, 0x205F, 0x3000}
  {
  }

  lemma {:induction false} BeforeFirstSplits(s: string, c: char) returns (rest: string)
    ensures s == BeforeFirst(s, c) + rest && (rest == "" || rest[0] == c)
  {
    rest := s;
    if s != "" && s[0] != c {
      rest := BeforeFirstSplits(s[1..], c);
      RegroupFirst(s, BeforeFirst(s[1..], c), rest);
    }
  }

  lemma RegroupFirst(s: string, kept: string, rest: string)
    requires s != "" && s[1..] == kept + rest
    ensures s == ([s[0]] + kept) + rest
  {
  }

  lemma {:induction false} LStripShorter(s: string)
    ensures |LStrip(s)| <= |s|
    ensures LStrip(s) != "" ==> !IsSpace(LStrip(s)[0])
  {
    if s != "" && IsSpace(s[0]) {
      LStripShorter(s[1..]);
    }
  }

  /** `split()`: the maximal runs of non-whitespace. */
  function Words(s: string): seq<string>
    decreases |s|
  {
    LStripShorter(s);
    var t := LStrip(s);
    if t == "" then [] else [t[..WordLength(t)]] + Words(t[WordLength(t)..])
  }

  /** The last path segment of a type name, without trailing slashes. */
  function Segment(s: string): string
  {
    AfterLast(AfterLast(RStripChar(s, '/'), '/'), '#')
  }

  lemma {:induction false} RStripCharTail(t: string, tail: string, c: char)
    requires AllOf(tail, c) && (t != "" ==> t[|t| - 1] != c)
    ensures RStripChar(t + tail, c) == t
  {
    if tail == "" {
      assert t + tail == t;
    } else {
      var n := |tail| - 1;
      assert tail[n] in tail;
      assert forall d :: d in tail[..n] ==> d in tail;
      assert (t + tail)[..|t + tail| - 1] == t + tail[..n];
      RStripCharTail(t, tail[..n], c);
    }
  }

  lemma {:induction false} AfterLastSuffix(p: string, name: string, c: char)
    requires c !in name
    ensures AfterLast(p + name, c) == AfterLast(p, c) + name
  {
    if name == "" {
      assert p + name == p;
    } else {
      var n := |name| - 1;
      assert name[n] in name;
      assert forall d :: d in name[..n] ==> d in name;
      assert (p + name)[..|p + name| - 1] == p + name[..n];
      AfterLastSuffix(p, name[..n], c);
      assert name == name[..n] + [name[n]];
    }
  }

  /** `name` is a bare name, `p` ends where a name can start, and only slashes follow. */
  ghost predicate NameAfter(p: string, name: string, slashes: string)
  {
    && name != "" && NoSpace(name) && '/' !in name && '#' !in name
    && (p == "" || p[|p| - 1] == '/' || p[|p| - 1] == '#')
    && AllOf(slashes, '/')
  }

  lemma SegmentTakesName(p: string, name: string, slashes: string)
    requires NameAfter(p, name, slashes)
    ensures Segment(p + name + slashes) == name
  {
    assert name[|name| - 1] in name;
    RStripCharTail(p + name, slashes, '/');
    AfterLastSuffix(p, name, '/');
    var u := AfterLast(p, '/');
    AfterLastSuffix(u, name, '#');
    assert AfterLast(u, '#') == "";
  }

  lemma {:induction false} AfterLastSplits(s: string, c: char) returns (pre: string)
    ensures s == pre + AfterLast(s, c)
    ensures pre == "" || pre[|pre| - 1] == c
  {
    if s == "" || s[|s| - 1] == c {
      return s;
    }
    pre := AfterLastSplits(s[..|s| - 1], c);
    assert s == s[..|s| - 1] + [s[|s| - 1]];
  }

  lemma {:induction false} RStripCharSplits(s: string, c: char) returns (tail: string)
    ensures s == RStripChar(s, c) + tail && AllOf(tail, c)
    ensures RStripChar(s, c) != "" ==> RStripChar(s, c)[|RStripChar(s, c)| - 1] != c
  {
    tail := "";
    if s != "" && s[|s| - 1] == c {
      var init, last := s[..|s| - 1], s[|s| - 1];
      var rest := RStripCharSplits(init, c);
      tail := rest + [last];
      RegroupLast(s, init, RStripChar(init, c), rest, last);
    }
  }

  lemma AfterBoth(t: string) returns (pre: string)
    ensures t == pre + AfterLast(AfterLast(t, '/'), '#')
    ensures pre == "" || pre[|pre| - 1] == '/' || pre[|pre| - 1] == '#'
  {
    var u := AfterLast(t, '/');
    var a := AfterLastSplits(t, '/');
    var b := AfterLastSplits(u, '#');
    Glue(t, a, u, b, AfterLast(u, '#'));
    pre := a + b;
    LastOfJoin(a, b);
  }

  lemma LastOfJoin(a: string, b: string)
    ensures var s := a + b; s != "" ==> s[|s| - 1] == if b != "" then b[|b| - 1] else a[|a| - 1]
  {
  }

  lemma Glue(t: string, a: string, u: string, b: string, r: string)
    requires t == a + u && u == b + r
    ensures t == (a + b) + r
  {
  }

  /** Any text is split like that: the segment has no slash or hash, starts the text or follows one of them,
      and is followed by the trailing slashes only. */
  lemma SegmentExact(s: string) returns (pre: string, slashes: string)
    ensures s == pre + Segment(s) + slashes && '/' !in Segment(s) && '#' !in Segment(s)
    ensures pre == "" || pre[|pre| - 1] == '/' || pre[|pre| - 1] == '#'
    ensures AllOf(slashes, '/')
    ensures var t := pre + Segment(s); t != "" ==> t[|t| - 1] != '/'
  {
    slashes := RStripCharSplits(s, '/');
    pre := AfterBoth(RStripChar(s, '/'));
    SegmentIsBare(s);
  }

  lemma SegmentIsBare(s: string)
    ensures '/' !in Segment(s) && '#' !in Segment(s)
  {
  }

  /** The short name of an item type; `None` when there is none. */
  function ShortType(itemtype: Option<string>): Option<string>
  {
    if itemtype.None? || itemtype.value == "" then None
    else
      var ws := Words(itemtype.value);
      var short := Segment(if ws != [] then ws[0] else itemtype.value);
      if short == "" then None else Some(short)
  }

  predicate NoSpace(s: string) { forall c :: c in s ==> !IsSpace(c) }

  lemma {:induction false} RStripCharKeeps(s: string, c: char)
    ensures forall d :: d in RStripChar(s, c) ==> d in s
    ensures c !in s ==> RStripChar(s, c) == s
  {
    if s != "" && s[|s| - 1] == c {
      RStripCharKeeps(s[..|s| - 1], c);
    }
  }

  lemma FirstWord(s: string)
    ensures Words(s) != [] ==> NoSpace(Words(s)[0]) && Words(s)[0] != ""
    ensures s != "" && NoSpace(s) ==> Words(s) == [s]
  {
    LStripShorter(s);
    var t := LStrip(s);
    if s != "" && NoSpace(s) {
      assert s[0] in s;
      assert t == s;
      assert forall k :: 0 <= k < |t| ==> t[k] in s;
      assert WordLength(t) == |t|;
      assert t[..|t|] == t;
      assert Words("") == [];
    }
  }

  /** The first word, and the rest. */
  lemma WordsCons(lead: string, w: string, tail: string)
    requires AllSpaces(lead) && w != "" && NoSpace(w) && (tail == "" || IsSpace(tail[0]))
    ensures Words(lead + w + tail) == [w] + Words(tail)
  {
    var t := w + tail;
    assert lead + w + tail == lead + t;
    assert w[0] in w && t[0] == w[0];
    LStripLead(lead, t);
    var n := WordLength(t);
    assert forall k :: 0 <= k < |w| ==> t[k] == w[k] && w[k] in w;
    assert tail != "" ==> t[|w|] == tail[0];
    assert n == |w|;
    assert t[..n] == w && t[n..] == tail;
    LStripShorter(lead + t);
  }

  /** Leading whitespace and further words do not matter; the first word gives the name after its last slash
      or hash, however many slashes follow: "https://schema.org/Product" is "Product". */
  lemma ShortTypeTakesName(lead: string, p: string, name: string, slashes: string, tail: string)
    requires AllSpaces(lead) && NoSpace(p) && NameAfter(p, name, slashes) && (tail == "" || IsSpace(tail[0]))
    ensures ShortType(Some(lead + p + name + slashes + tail)) == Some(name)
  {
    var w := p + name + slashes;
    assert lead + p + name + slashes + tail == lead + w + tail;
    assert forall c :: c in w ==> c in p || c in name || c in slashes;
    WordsCons(lead, w, tail);
    SegmentTakesName(p, name, slashes);
  }

  /** Words with whitespace around them. */
  function Spread(gaps: seq<string>, ws: seq<string>): string
    requires |gaps| == |ws| + 1
  {
    if ws == [] then gaps[0] else gaps[0] + ws[0] + Spread(gaps[1..], ws[1..])
  }

  /** Whitespace gaps, not empty between two words, and words without whitespace, not empty. */
  ghost predicate IsSpread(gaps: seq<string>, ws: seq<string>)
  {
    && |gaps| == |ws| + 1
    && (forall k :: 0 <= k < |gaps| ==> AllSpaces(gaps[k]))
    && (forall k :: 0 < k < |ws| ==> gaps[k] != "")
    && (forall k :: 0 <= k < |ws| ==> ws[k] != "" && NoSpace(ws[k]))
  }

  /** `split()` gives back all the words of a text, in order. */
  lemma {:induction false} WordsOfSpread(gaps: seq<string>, ws: seq<string>)
    requires IsSpread(gaps, ws)
    ensures Words(Spread(gaps, ws)) == ws
  {
    if ws == [] {
      assert gaps[0] + "" == gaps[0];
      LStripLead(gaps[0], "");
    } else {
      var rest := Spread(gaps[1..], ws[1..]);
      assert IsSpread(gaps[1..], ws[1..]) by {
        assert forall k :: 0 <= k < |gaps| - 1 ==> gaps[1..][k] == gaps[k + 1];
        assert forall k :: 0 <= k < |ws| - 1 ==> ws[1..][k] == ws[k + 1];
      }
      WordsOfSpread(gaps[1..], ws[1..]);
      SpreadStart(gaps[1..], ws[1..]);
      WordsCons(gaps[0], ws[0], rest);
    }
  }

  /** After a word comes whitespace or nothing. */
  lemma SpreadStart(gaps: seq<string>, ws: seq<string>)
    requires |gaps| == |ws| + 1 && AllSpaces(gaps[0]) && (ws != [] ==> gaps[0] != "")
    ensures Spread(gaps, ws) == "" || IsSpace(Spread(gaps, ws)[0])
  {
    if gaps[0] != "" {
      assert gaps[0][0] in gaps[0];
      assert Spread(gaps, ws)[0] == gaps[0][0];
    }
  }

  /** Every text is such a spread of its words, so `split()` finds exactly its maximal runs of
      non-whitespace. */
  lemma {:induction false} WordsExact(s: string) returns (gaps: seq<string>)
    ensures IsSpread(gaps, Words(s)) && Spread(gaps, Words(s)) == s
    decreases |s|
  {
    LStripShorter(s);
    var lead := LStripSplits(s);
    var t := LStrip(s);
    if t == "" {
      gaps := [s];
      return;
    }
    var n := WordLength(t);
    var more := WordsExact(t[n..]);
    gaps := [lead] + more;
    WordsExactStep(s, lead, t[..n], t[n..], more);
  }

  lemma WordsExactStep(s: string, lead: string, w: string, tail: string, more: seq<string>)
    requires s == lead + w + tail && AllSpaces(lead) && w != "" && (forall k :: 0 <= k < |w| ==> !IsSpace(w[k]))
    requires (tail == "" || IsSpace(tail[0])) && Words(s) == [w] + Words(tail)
    requires IsSpread(more, Words(tail)) && Spread(more, Words(tail)) == tail
    ensures IsSpread([lead] + more, Words(s)) && Spread([lead] + more, Words(s)) == s
  {
    var gaps, ws := [lead] + more, Words(tail);
    assert gaps[1..] == more && ([w] + ws)[1..] == ws;
    if ws != [] && more[0] == "" {
      assert ws[0][0] in ws[0] && tail[0] == ws[0][0];
    }
    assert forall k :: 0 < k < |gaps| ==> gaps[k] == more[k - 1];
    assert forall k :: 0 < k < |ws| + 1 ==> ([w] + ws)[k] == ws[k - 1];
  }

  lemma {:induction false} AllSpace(s: string)
    requires Words(s) == []
    ensures forall c :: c in s ==> IsSpace(c)
  {
    if s != "" && IsSpace(s[0]) {
      assert Words(s[1..]) == [] by {
        LStripShorter(s[1..]);
      }
      AllSpace(s[1..]);
      assert s == [s[0]] + s[1..];
    }
  }

  /** A short name has no slash, no hash, and is its own short name. */
  lemma ShortTypeIdempotent(itemtype: Option<string>)
    requires ShortType(itemtype).Some?
    ensures var t := ShortType(itemtype).value;
            t != "" && '/' !in t && '#' !in t && ShortType(Some(t)) == Some(t)
  {
    var s := itemtype.value;
    var t := ShortType(itemtype).value;
    var first := if Words(s) != [] then Words(s)[0] else s;
    RStripCharKeeps(first, '/');
    RStripCharKeeps(t, '/');
    FirstWord(s);
    FirstWord(t);
    if Words(s) == [] {
      AllSpace(s);
      assert '/' !in s && '#' !in s;
    }
  }
}

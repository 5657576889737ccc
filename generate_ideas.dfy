/** Pattern analysis over the OCR results and the template idea built from
    it (`src/06_generate_ideas.py`).

    The OCR results file is given as its parsed list (None when the file
    does not exist); the ISO week stamp is a parameter. `Counter` and its
    `most_common` are written out: counts per distinct token in order of
    first occurrence, then repeatedly the first entry with the highest
    count, which is the order a stable sort by descending count gives. */
module GenerateIdeas {
  import opened Wrappers
  import opened Text
  import Ocr

  // ---------------------------------------------------------------------
  // Token lists
  // ---------------------------------------------------------------------

  /** `[c.strip() for c in field.split(",")]` for a truthy field, nothing
      for an empty one. */
  function FieldTokens(field: string): (r: seq<string>)
    ensures field == "" ==> r == []
    ensures forall k :: 0 <= k < |r| ==> ',' !in r[k]
    ensures forall k :: 0 <= k < |r| ==> r[k] == [] || (!IsSpace(r[k][0]) && !IsSpace(r[k][|r[k]| - 1]))
  {
    if field == "" then []
    else
      var pieces := Split(field, ',');
      var r := seq(|pieces|, k requires 0 <= k < |pieces| => Strip(pieces[k]));
      forall k | 0 <= k < |r|
        ensures ',' !in r[k] && (r[k] == [] || (!IsSpace(r[k][0]) && !IsSpace(r[k][|r[k]| - 1])))
      {
        assert r[k] == Strip(pieces[k]);
        StripIsInfix(pieces[k]);
      }
      r
  }

  /** A stripped string is a piece of the original. */
  lemma StripIsInfix(s: string)
    ensures forall c :: c in Strip(s) ==> c in s
  {
    var l := LStrip(s);
    var r := RStrip(l);
    assert Strip(s) == r;
    forall c | c in r ensures c in s {
      var i :| 0 <= i < |r| && r[i] == c;
      assert r[i] == l[..|r|][i] == l[i];
      assert l[i] == s[|s| - |l|..][i] == s[|s| - |l| + i];
    }
  }

  /** The call-to-action tokens of the results, in order. */
  function CtaTokens(results: seq<Ocr.OcrResult>): seq<string> {
    if results == [] then []
    else CtaTokens(results[..|results| - 1]) + FieldTokens(results[|results| - 1].elements.cta)
  }

  /** The offer tokens of the results, in order. */
  function OfferTokens(results: seq<Ocr.OcrResult>): seq<string> {
    if results == [] then []
    else OfferTokens(results[..|results| - 1]) + FieldTokens(results[|results| - 1].elements.offer)
  }

  /** The non-empty key claims of the results, in order. */
  function Claims(results: seq<Ocr.OcrResult>): (r: seq<string>)
    ensures |r| <= |results|
    ensures forall k :: 0 <= k < |r| ==> r[k] != ""
  {
    if results == [] then []
    else
      var last := results[|results| - 1].elements.keyClaims;
      Claims(results[..|results| - 1]) + (if last != "" then [last] else [])
  }

  /** The claims keep the input order: they distribute over concatenation. */
  lemma {:induction false} ClaimsInOrder(a: seq<Ocr.OcrResult>, b: seq<Ocr.OcrResult>)
    ensures Claims(a + b) == Claims(a) + Claims(b)
    decreases |b|
  {
    if b == [] {
      assert a + b == a;
    } else {
      var init := b[..|b| - 1];
      assert (a + b)[..|a + b| - 1] == a + init;
      ClaimsInOrder(a, init);
    }
  }

  /** A result with a non-empty claim contributes exactly that claim. */
  lemma ClaimOfOne(r: Ocr.OcrResult)
    ensures Claims([r]) == if r.elements.keyClaims != "" then [r.elements.keyClaims] else []
  {
    assert [r][..0] == [];
  }

  // ---------------------------------------------------------------------
  // Counting
  // ---------------------------------------------------------------------

  function Occurrences(x: string, s: seq<string>): (n: nat)
    ensures n <= |s|
    ensures n > 0 <==> x in s
  {
    if s == [] then 0
    else
      var init := s[..|s| - 1];
      assert s == init + [s[|s| - 1]];
      Occurrences(x, init) + (if s[|s| - 1] == x then 1 else 0)
  }

  /** One `(token, count)` pair of `most_common`. */
  datatype Freq = Freq(token: string, count: nat)

  /** `Counter(tokens).items()`: each distinct token once with its number
      of occurrences, in order of first occurrence. */
  function Counted(tokens: seq<string>): (r: seq<Freq>)
    ensures forall k :: 0 <= k < |r| ==> r[k].count == Occurrences(r[k].token, tokens) && r[k].token in tokens
    ensures forall k :: 0 <= k < |tokens| ==> exists j :: 0 <= j < |r| && r[j].token == tokens[k]
    ensures forall i, j :: 0 <= i < j < |r| ==> r[i].token != r[j].token
  {
    var d := Dedup(tokens);
    var r := seq(|d|, k requires 0 <= k < |d| => Freq(d[k], Occurrences(d[k], tokens)));
    assert forall k :: 0 <= k < |tokens| ==> exists j :: 0 <= j < |r| && r[j].token == tokens[k] by {
      forall k | 0 <= k < |tokens| ensures exists j :: 0 <= j < |r| && r[j].token == tokens[k] {
        var j :| 0 <= j < |d| && d[j] == tokens[k];
        assert r[j].token == tokens[k];
      }
    }
    r
  }

  /** The position of the first entry with the highest count (see
      `FirstMaxIsFirstHighest`). */
  function FirstMax(items: seq<Freq>): (i: nat)
    requires items != []
    ensures i < |items|
  {
    FirstMaxIn(items, |items|)
  }

  /** The first entry with the highest count among the first `m`. */
  function FirstMaxIn(items: seq<Freq>, m: nat): (i: nat)
    requires 0 < m <= |items|
    ensures i < m
  {
    if m == 1 then 0
    else
      var i := FirstMaxIn(items, m - 1);
      if items[m - 1].count > items[i].count then m - 1 else i
  }

  /** `FirstMax` finds the highest count, and no earlier entry has it. */
  lemma FirstMaxIsFirstHighest(items: seq<Freq>)
    requires items != []
    ensures forall j :: 0 <= j < |items| ==> items[j].count <= items[FirstMax(items)].count
    ensures forall j :: 0 <= j < FirstMax(items) ==> items[j].count < items[FirstMax(items)].count
  {
    FirstMaxInIsFirstHighest(items, |items|);
  }

  lemma {:induction false} FirstMaxInIsFirstHighest(items: seq<Freq>, m: nat)
    requires 0 < m <= |items|
    ensures forall j :: 0 <= j < m ==> items[j].count <= items[FirstMaxIn(items, m)].count
    ensures forall j :: 0 <= j < FirstMaxIn(items, m) ==> items[j].count < items[FirstMaxIn(items, m)].count
    decreases m
  {
    if m > 1 {
      FirstMaxInIsFirstHighest(items, m - 1);
    }
  }

  /** The items with position `i` taken out. */
  function Without(items: seq<Freq>, i: nat): (r: seq<Freq>)
    requires i < |items|
    ensures |r| == |items| - 1
  {
    seq(|items| - 1, k requires 0 <= k < |items| - 1 => items[if k < i then k else k + 1])
  }

  /** After taking out position `i`, the entries before it keep their
      positions and those after it move down by one. */
  lemma WithoutAt(items: seq<Freq>, i: nat, k: nat)
    requires i < |items| && k < |items| - 1
    ensures Without(items, i)[k] == items[if k < i then k else k + 1]
  {
  }

  /** `most_common(n)` over the counted items. */
  function MostCommon(items: seq<Freq>, n: nat): (r: seq<Freq>)
    ensures |r| == Min(n, |items|)
    decreases n
  {
    if n == 0 || items == [] then []
    else
      var i := FirstMax(items);
      [items[i]] + MostCommon(Without(items, i), n - 1)
  }

  predicate DistinctTokens(items: seq<Freq>) {
    forall i, j :: 0 <= i < j < |items| ==> items[i].token != items[j].token
  }

  predicate SortedByCount(items: seq<Freq>) {
    forall k :: 0 <= k < |items| - 1 ==> items[k].count >= items[k + 1].count
  }

  /** `most_common` takes the first entry of highest count, then proceeds
      with the rest. */
  lemma MostCommonStep(items: seq<Freq>, n: nat)
    requires n > 0 && items != []
    ensures MostCommon(items, n) == [items[FirstMax(items)]] + MostCommon(Without(items, FirstMax(items)), n - 1)
  {
  }

  /** The chosen entries are among the items. */
  lemma TopIsFromItems(items: seq<Freq>, n: nat, k: nat)
    requires k < |MostCommon(items, n)|
    ensures exists j :: 0 <= j < |items| && items[j] == MostCommon(items, n)[k]
  {
    var j := TopSource(items, n, k);
  }

  /** The position in the items of the `k`-th chosen entry. */
  lemma {:induction false} TopSource(items: seq<Freq>, n: nat, k: nat) returns (j: nat)
    requires k < |MostCommon(items, n)|
    ensures j < |items| && items[j] == MostCommon(items, n)[k]
    decreases n
  {
    var i := FirstMax(items);
    var rest := Without(items, i);
    var tail := MostCommon(rest, n - 1);
    MostCommonStep(items, n);
    if k > 0 {
      assert MostCommon(items, n)[k] == tail[k - 1];
      var j' := TopSource(rest, n - 1, k - 1);
      WithoutAt(items, i, j');
      j := if j' < i then j' else j' + 1;
    } else {
      j := i;
    }
  }

  /** Taking out a position keeps the tokens distinct. */
  lemma WithoutDistinct(items: seq<Freq>, i: nat)
    requires i < |items| && DistinctTokens(items)
    ensures DistinctTokens(Without(items, i))
  {
    var rest := Without(items, i);
    forall a, b | 0 <= a < b < |rest| ensures rest[a].token != rest[b].token {
      WithoutAt(items, i, a);
      WithoutAt(items, i, b);
    }
  }

  lemma ConsDistinct(x: Freq, tail: seq<Freq>)
    requires DistinctTokens(tail) && forall k :: 0 <= k < |tail| ==> tail[k].token != x.token
    ensures DistinctTokens([x] + tail)
  {
    var r := [x] + tail;
    forall a, b | 0 <= a < b < |r| ensures r[a].token != r[b].token {
      assert r[b] == tail[b - 1];
      if a > 0 {
        assert r[a] == tail[a - 1];
      }
    }
  }

  /** No token is chosen twice. */
  lemma {:induction false} MostCommonIsDistinct(items: seq<Freq>, n: nat)
    requires DistinctTokens(items)
    ensures DistinctTokens(MostCommon(items, n))
    decreases n
  {
    if n > 0 && items != [] {
      var i := FirstMax(items);
      var rest := Without(items, i);
      WithoutDistinct(items, i);
      MostCommonIsDistinct(rest, n - 1);
      var tail := MostCommon(rest, n - 1);
      forall k | 0 <= k < |tail| ensures tail[k].token != items[i].token {
        var j' := TopSource(rest, n - 1, k);
        WithoutAt(items, i, j');
      }
      ConsDistinct(items[i], tail);
      MostCommonStep(items, n);
    }
  }

  lemma ConsSorted(x: Freq, tail: seq<Freq>)
    requires SortedByCount(tail) && (tail != [] ==> x.count >= tail[0].count)
    ensures SortedByCount([x] + tail)
  {
    var r := [x] + tail;
    forall k | 0 <= k < |r| - 1 ensures r[k].count >= r[k + 1].count {
      assert r[k + 1] == tail[k];
      if k > 0 {
        assert r[k] == tail[k - 1];
      }
    }
  }

  /** The chosen entries come in non-increasing count order. */
  lemma {:induction false} MostCommonIsSorted(items: seq<Freq>, n: nat)
    ensures SortedByCount(MostCommon(items, n))
    decreases n
  {
    if n > 0 && items != [] {
      var i := FirstMax(items);
      var rest := Without(items, i);
      MostCommonIsSorted(rest, n - 1);
      var tail := MostCommon(rest, n - 1);
      if tail != [] {
        FirstMaxIsFirstHighest(items);
        var j' := TopSource(rest, n - 1, 0);
        WithoutAt(items, i, j');
      }
      ConsSorted(items[i], tail);
      MostCommonStep(items, n);
    }
  }

  lemma ConsAtLeast(x: Freq, tail: seq<Freq>, c: nat)
    requires c <= x.count && forall k :: 0 <= k < |tail| ==> c <= tail[k].count
    ensures forall k :: 0 <= k < |[x] + tail| ==> c <= ([x] + tail)[k].count
  {
    var r := [x] + tail;
    forall k | 0 <= k < |r| ensures c <= r[k].count {
      if k > 0 {
        assert r[k] == tail[k - 1];
      }
    }
  }

  /** A token not listed after `x` and not `x`'s own is not listed. */
  lemma ConsNotListed(x: Freq, tail: seq<Freq>, t: string)
    requires !Listed([x] + tail, t)
    ensures x.token != t && !Listed(tail, t)
  {
    assert ([x] + tail)[0] == x;
    forall k | 0 <= k < |tail| ensures tail[k].token != t {
      assert ([x] + tail)[k + 1] == tail[k];
    }
  }

  /** The top-`n` property: an item whose token is not listed has a count
      no higher than any chosen one. */
  lemma {:induction false} MostCommonIsTop(items: seq<Freq>, n: nat, j: nat)
    requires j < |items| && !Listed(MostCommon(items, n), items[j].token)
    ensures forall k :: 0 <= k < |MostCommon(items, n)| ==> items[j].count <= MostCommon(items, n)[k].count
    decreases n
  {
    if n > 0 && items != [] {
      var i := FirstMax(items);
      var rest := Without(items, i);
      var tail := MostCommon(rest, n - 1);
      MostCommonStep(items, n);
      ConsNotListed(items[i], tail, items[j].token);
      var j' := if j < i then j else j - 1;
      WithoutAt(items, i, j');
      MostCommonIsTop(rest, n - 1, j');
      FirstMaxIsFirstHighest(items);
      ConsAtLeast(items[i], tail, items[j].count);
    }
  }

  /** With no more than `n` items, `most_common(n)` lists all of them. */
  lemma {:induction false} MostCommonTakesAllWhenFew(items: seq<Freq>, n: nat, j: nat)
    requires |items| <= n && j < |items|
    ensures Listed(MostCommon(items, n), items[j].token)
    decreases n
  {
    var i := FirstMax(items);
    var rest := Without(items, i);
    MostCommonStep(items, n);
    if j != i {
      var j' := if j < i then j else j - 1;
      WithoutAt(items, i, j');
      MostCommonTakesAllWhenFew(rest, n - 1, j');
    }
    ConsListed(items[i], MostCommon(rest, n - 1), items[j].token);
  }

  lemma ConsListed(x: Freq, tail: seq<Freq>, t: string)
    requires x.token == t || Listed(tail, t)
    ensures Listed([x] + tail, t)
  {
    if x.token == t {
      assert ([x] + tail)[0] == x;
    } else {
      var k :| 0 <= k < |tail| && tail[k].token == t;
      assert ([x] + tail)[k + 1] == tail[k];
    }
  }

  // ---------------------------------------------------------------------
  // analyze_patterns
  // ---------------------------------------------------------------------

  /** The dictionary `analyze_patterns` returns. */
  datatype Patterns = Patterns(commonCtas: seq<Freq>, commonOffers: seq<Freq>, claimSamples: seq<string>, totalAnalyzed: nat)

  /** The patterns of a result list: the five most common tokens of each
      kind, the first ten claims and the number of results. */
  function PatternsOf(results: seq<Ocr.OcrResult>): Patterns {
    Patterns(MostCommon(Counted(CtaTokens(results)), 5), MostCommon(Counted(OfferTokens(results)), 5),
             Prefix(Claims(results), 10), |results|)
  }

  /** `analyze_patterns`: the loop collecting the tokens and claims, then
      the counting. */
  method AnalyzePatterns(results: seq<Ocr.OcrResult>) returns (p: Patterns)
    ensures p == PatternsOf(results)
  {
    var ctas: seq<string> := [];
    var offers: seq<string> := [];
    var claims: seq<string> := [];
    var i := 0;
    while i < |results|
      invariant 0 <= i <= |results|
      invariant ctas == CtaTokens(results[..i]) && offers == OfferTokens(results[..i])
      invariant claims == Claims(results[..i])
    {
      var r := results[i];
      CollectStep(results, i);
      if r.elements.cta != "" {
        ctas := ctas + FieldTokens(r.elements.cta);
      }
      if r.elements.offer != "" {
        offers := offers + FieldTokens(r.elements.offer);
      }
      if r.elements.keyClaims != "" {
        claims := claims + [r.elements.keyClaims];
      }
      i := i + 1;
    }
    assert results[..i] == results;
    p := Patterns(MostCommon(Counted(ctas), 5), MostCommon(Counted(offers), 5), Prefix(claims, 10), |results|);
  }

  /** One more result adds its tokens and its claim at the end. */
  lemma CollectStep(results: seq<Ocr.OcrResult>, i: nat)
    requires i < |results|
    ensures var e := results[i].elements;
            CtaTokens(results[..i + 1]) == CtaTokens(results[..i]) + FieldTokens(e.cta) &&
            OfferTokens(results[..i + 1]) == OfferTokens(results[..i]) + FieldTokens(e.offer) &&
            Claims(results[..i + 1]) == Claims(results[..i]) + (if e.keyClaims != "" then [e.keyClaims] else [])
  {
    assert results[..i + 1][..i] == results[..i];
  }

  /** What the patterns mean: at most five `(token, count)` pairs of each
      kind, counts exact and non-increasing, no token left out that occurs
      more often than a listed one; the claim samples are the first ten
      non-empty claims; and the count is the number of results. */
  lemma PatternsMeaning(results: seq<Ocr.OcrResult>)
    ensures var p := PatternsOf(results);
            |p.commonCtas| <= 5 && |p.commonOffers| <= 5 &&
            p.claimSamples == Claims(results)[..Min(10, |Claims(results)|)] &&
            p.totalAnalyzed == |results|
    ensures IsTopFive(PatternsOf(results).commonCtas, CtaTokens(results))
    ensures IsTopFive(PatternsOf(results).commonOffers, OfferTokens(results))
  {
    TopFiveOfCounted(CtaTokens(results));
    TopFiveOfCounted(OfferTokens(results));
  }

  /** `top` is `most_common(5)` of `tokens` as far as its caller can tell:
      at most five distinct tokens with their exact counts, in
      non-increasing count order, no token left out that occurs more often
      than a listed one, and every token listed when there are at most five. */
  predicate IsTopFive(top: seq<Freq>, tokens: seq<string>) {
    |top| <= 5 && DistinctTokens(top) &&
    (forall k :: 0 <= k < |top| ==> top[k].token in tokens && top[k].count == Occurrences(top[k].token, tokens)) &&
    SortedByCount(top) &&
    (forall k, t :: 0 <= k < |top| && t in tokens && !Listed(top, t) ==> Occurrences(t, tokens) <= top[k].count) &&
    (|Counted(tokens)| <= 5 ==> forall t :: t in tokens ==> Listed(top, t))
  }

  predicate Listed(top: seq<Freq>, t: string) {
    exists j :: 0 <= j < |top| && top[j].token == t
  }

  lemma TopFiveOfCounted(tokens: seq<string>)
    ensures IsTopFive(MostCommon(Counted(tokens), 5), tokens)
  {
    MostCommonIsDistinct(Counted(tokens), 5);
    MostCommonIsSorted(Counted(tokens), 5);
    TopCountsExact(tokens);
    TopLeavesNoneHigher(tokens);
    TopListsAllWhenFew(tokens);
  }

  /** Each chosen token occurs in the input, with its exact count. */
  lemma TopCountsExact(tokens: seq<string>)
    ensures var top := MostCommon(Counted(tokens), 5);
            forall k :: 0 <= k < |top| ==> top[k].token in tokens && top[k].count == Occurrences(top[k].token, tokens)
  {
    var top := MostCommon(Counted(tokens), 5);
    forall k | 0 <= k < |top| ensures top[k].token in tokens && top[k].count == Occurrences(top[k].token, tokens) {
      TopIsFromItems(Counted(tokens), 5, k);
    }
  }

  /** A token left out occurs no more often than any chosen one. */
  lemma TopLeavesNoneHigher(tokens: seq<string>)
    ensures var top := MostCommon(Counted(tokens), 5);
            forall k, t :: 0 <= k < |top| && t in tokens && !Listed(top, t) ==> Occurrences(t, tokens) <= top[k].count
  {
    var items := Counted(tokens);
    var top := MostCommon(items, 5);
    forall k, t | 0 <= k < |top| && t in tokens && !Listed(top, t)
      ensures Occurrences(t, tokens) <= top[k].count
    {
      var m :| 0 <= m < |tokens| && tokens[m] == t;
      var j :| 0 <= j < |items| && items[j].token == tokens[m];
      assert items[j].count == Occurrences(t, tokens);
      MostCommonIsTop(items, 5, j);
      assert items[j].count <= top[k].count;
    }
  }

  /** With at most five distinct tokens, every token is chosen. */
  lemma TopListsAllWhenFew(tokens: seq<string>)
    ensures |Counted(tokens)| <= 5 ==> forall t :: t in tokens ==> Listed(MostCommon(Counted(tokens), 5), t)
  {
    var items := Counted(tokens);
    var top := MostCommon(items, 5);
    if |items| <= 5 {
      forall t | t in tokens ensures Listed(top, t) {
        var m :| 0 <= m < |tokens| && tokens[m] == t;
        var j :| 0 <= j < |items| && items[j].token == tokens[m];
        MostCommonTakesAllWhenFew(items, 5, j);
      }
    }
  }

  // ---------------------------------------------------------------------
  // generate_ideas_from_patterns and generate_all_ideas
  // ---------------------------------------------------------------------

  /** The fields of the idea dictionary that depend on the input. */
  datatype Idea = Idea(week: string, sourceAds: string, insights: string, idea1Copy: string)

  function CtaInsight(token: string): string { "가장 많이 사용된 CTA: " + token }

  function OfferInsight(token: string): string { "주요 오퍼 유형: " + token }

  function CountInsight(n: nat): string { "분석된 광고 수: " + NatToString(n) + "개" }

  /** The insight lines, in the order they are appended. */
  function Insights(p: Patterns): (r: seq<string>)
    ensures |r| == 1 + (if p.commonCtas != [] then 1 else 0) + (if p.commonOffers != [] then 1 else 0)
    ensures r[|r| - 1] == CountInsight(p.totalAnalyzed)
    ensures p.commonCtas != [] ==> r[0] == CtaInsight(p.commonCtas[0].token)
    ensures p.commonOffers != [] ==> OfferInsight(p.commonOffers[0].token) in r
  {
    (if p.commonCtas != [] then [CtaInsight(p.commonCtas[0].token)] else [])
    + (if p.commonOffers != [] then [OfferInsight(p.commonOffers[0].token)] else [])
    + [CountInsight(p.totalAnalyzed)]
  }

  /** `generate_ideas_from_patterns` for a week stamp. */
  function IdeaFrom(p: Patterns, sourceAds: seq<string>, week: string): (idea: Idea)
    ensures idea.insights == Join(Insights(p), " | ")
    ensures idea.sourceAds == Join(Prefix(sourceAds, 5), ", ")
  {
    var offer := if p.commonOffers != [] then p.commonOffers[0].token else "특별 혜택";
    var cta := if p.commonCtas != [] then p.commonCtas[0].token else "지금 확인하세요";
    Idea(week, Join(Prefix(sourceAds, 5), ", "), Join(Insights(p), " | "), "지금 " + offer + "! " + cta)
  }

  /** The non-empty ad ids of the results, in order. */
  function SourceAds(results: seq<Ocr.OcrResult>): (r: seq<string>)
    ensures |r| <= |results|
    ensures forall k :: 0 <= k < |r| ==> r[k] != ""
  {
    if results == [] then []
    else
      var last := results[|results| - 1].adId;
      SourceAds(results[..|results| - 1]) + (if last != "" then [last] else [])
  }

  /** `generate_all_ideas`: no ideas when the OCR results file is missing
      or holds an empty list; otherwise exactly one idea. */
  function AllIdeas(ocrFile: Option<seq<Ocr.OcrResult>>, week: string): (r: seq<Idea>)
    ensures ocrFile.None? || ocrFile.value == [] ==> r == []
    ensures ocrFile.Some? && ocrFile.value != [] ==>
              |r| == 1 && r[0] == IdeaFrom(PatternsOf(ocrFile.value), SourceAds(ocrFile.value), week)
  {
    match ocrFile
    case None => []
    case Some(results) =>
      if results == [] then [] else [IdeaFrom(PatternsOf(results), SourceAds(results), week)]
  }

  /** The joined insights always end with the analysed-count entry, and
      they start with the top call to action when there is one. */
  lemma InsightsJoined(p: Patterns)
    ensures EndsWith(Join(Insights(p), " | "), CountInsight(p.totalAnalyzed))
    ensures p.commonCtas != [] ==> StartsWith(Join(Insights(p), " | "), CtaInsight(p.commonCtas[0].token))
  {
    JoinEndsWithLast(Insights(p), " | ");
    JoinStartsWithFirst(Insights(p), " | ");
  }

  lemma {:induction false} JoinEndsWithLast(parts: seq<string>, sep: string)
    requires parts != []
    ensures EndsWith(Join(parts, sep), parts[|parts| - 1])
    decreases |parts|
  {
    if |parts| > 1 {
      JoinEndsWithLast(parts[1..], sep);
      var j := Join(parts[1..], sep);
      var last := parts[|parts| - 1];
      assert j[|j| - |last|..] == last;
      var whole := parts[0] + sep + j;
      assert whole[|whole| - |last|..] == j[|j| - |last|..];
    }
  }

  lemma JoinStartsWithFirst(parts: seq<string>, sep: string)
    requires parts != []
    ensures StartsWith(Join(parts, sep), parts[0])
  {
    if |parts| > 1 {
      assert (parts[0] + sep + Join(parts[1..], sep))[..|parts[0]|] == parts[0];
    }
  }
}

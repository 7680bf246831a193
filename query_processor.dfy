/** Dictionary-based query expansion (`QueryProcessor.expand_query`). */
module QueryExpansion {
  import opened Seqs
  import opened Text

  /** One `keyword: expansion` item of the keyword table. */
  datatype Entry = Entry(keyword: string, expansion: string)

  /** At most this many leading words of an expansion are considered. */
  const TermsPerKeyword: nat := 3
  /** At most this many new terms are appended to the query. */
  const MaxAddedTerms: nat := 5

  /** `KEYWORD_MAP`, in its declaration (and so iteration) order. */
  const KeywordMap: seq<Entry> := [
    Entry("transformer", "변압기 substation voltage equipment insulating oil"),
    Entry("renewable energy", "재생에너지 신재생 solar wind VRE variable"),
    Entry("HVDC", "직류송전 high voltage direct current transmission VSC LCC BTB"),
    Entry("grid", "전력망 송전망 배전망 power system network transmission distribution"),
    Entry("stability", "안정도 frequency voltage control dynamic"),
    Entry("ESS", "에너지저장 energy storage battery BESS"),
    Entry("inverter", "인버터 converter grid-forming grid-following"),
    Entry("transmission", "송전 송전선로 765kV 345kV line tower conductor"),
    Entry("distribution", "배전 DC AC system network"),
    Entry("generator", "발전 발전기 synchronous turbine power plant"),
    Entry("market", "시장 전력시장 SMP CBP electricity trading"),
    Entry("smart grid", "스마트그리드 지능형전력망 automation SCADA"),
    Entry("nuclear", "원자력 nuclear power plant reactor"),
    Entry("coal", "석탄 coal plant thermal"),
    Entry("curtailment", "출력제한 제약 curtailment limitation"),
    Entry("재생에너지", "renewable solar wind VRE 태양광 풍력"),
    Entry("전력망", "grid power system 송전망 배전망 transmission"),
    Entry("변압기", "transformer substation 변전소 voltage"),
    Entry("송전", "transmission line 송전선로 765kV 345kV HVDC"),
    Entry("안정도", "stability frequency voltage control 주파수 전압"),
    Entry("에너지저장", "ESS energy storage battery BESS 배터리"),
    Entry("전력시장", "electricity market SMP CBP trading 거래"),
    Entry("한전", "KEPCO KPX 전력거래소 utility"),
    Entry("스마트그리드", "smart grid automation 자동화 SCADA DAS"),
    Entry("제주", "Jeju island 해남 HVDC interconnection"),
    Entry("동기조상기", "synchronous condenser compensator reactive"),
    Entry("출력제한", "curtailment limitation VRE constraint"),
    Entry("전력수급", "electricity supply demand BPLE planning"),
    Entry("KPX", "전력거래소 Korea Power Exchange market operator KEPCO"),
    Entry("KEPCO", "한전 Korea Electric Power utility transmission"),
    Entry("insulating oil", "절연유 transformer oil dielectric"),
    Entry("PyPSA", "power system analysis toolbox optimization"),
    Entry("765kV", "transmission line 송전선로 ultra high voltage"),
    Entry("CBP", "cost-based pool 비용기반풀 market pricing SMP"),
    Entry("SMP", "system marginal price 계통한계가격 market"),
    Entry("EMSC", "전력시장감시위원회 market monitoring surveillance"),
    Entry("SCADA", "supervisory control 감시제어 automation DAS"),
    Entry("VRE", "variable renewable energy 변동성재생에너지 solar wind"),
    Entry("BPLE", "전력수급기본계획 basic plan electricity supply demand")
  ]

  /** A keyword matches when its lower-cased form occurs in the lower-cased query or it occurs as is. */
  predicate KeywordMatches(keyword: string, query: string) {
    Contains(Lower(query), Lower(keyword)) || Contains(query, keyword)
  }

  /** A term counts as present when it occurs case-insensitively or exactly. */
  predicate InQuery(term: string, query: string) {
    Contains(Lower(query), Lower(term)) || Contains(query, term)
  }

  /** `expansion.split()[:3]`. */
  function ExpansionTerms(expansion: string): (r: seq<string>)
    ensures |r| <= TermsPerKeyword && |r| <= |Split(expansion)| && r == Split(expansion)[..|r|]
    ensures |r| == Min(TermsPerKeyword, |Split(expansion)|)
  {
    Take(Split(expansion), TermsPerKeyword)
  }

  /** The words of `ts` that are not yet in the query, gathered left to right. */
  function NewTerms(ts: seq<string>, query: string): set<string>
  {
    if ts == [] then {}
    else NewTerms(ts[..|ts| - 1], query) + (if InQuery(ts[|ts| - 1], query) then {} else {ts[|ts| - 1]})
  }

  /** Gathering the words one by one keeps exactly the words not yet in the query. */
  lemma {:induction false} NewTermsIff(ts: seq<string>, query: string)
    ensures NewTerms(ts, query) == set t | t in ts && !InQuery(t, query)
  {
    if ts != [] {
      var p := ts[..|ts| - 1];
      NewTermsIff(p, query);
      assert ts == p + [ts[|ts| - 1]];
    }
  }

  /** The terms `entry` contributes to the expansion of `query`. */
  function EntryTerms(entry: Entry, query: string): set<string>
  {
    if KeywordMatches(entry.keyword, query) then NewTerms(ExpansionTerms(entry.expansion), query) else {}
  }

  /** The union of `f(x)` over the elements of `xs`, gathered left to right. */
  function UnionOf<E>(xs: seq<E>, f: E -> set<string>): set<string>
  {
    if xs == [] then {} else UnionOf(xs[..|xs| - 1], f) + f(xs[|xs| - 1])
  }

  lemma {:induction false} UnionOfMembers<E>(xs: seq<E>, f: E -> set<string>, t: string)
    ensures t in UnionOf(xs, f) <==> exists i :: 0 <= i < |xs| && t in f(xs[i])
  {
    if xs != [] {
      var n := |xs| - 1;
      var p := xs[..n];
      UnionOfMembers(p, f, t);
      if t in UnionOf(p, f) {
        var i :| 0 <= i < |p| && t in f(p[i]);
        assert xs[i] == p[i];
      }
      if t in f(xs[n]) {
        assert 0 <= n < |xs| && t in f(xs[n]);
      }
      if exists i :: 0 <= i < |xs| && t in f(xs[i]) {
        var i :| 0 <= i < |xs| && t in f(xs[i]);
        if i < n {
          assert p[i] == xs[i];
        }
      }
    }
  }

  lemma UnionOfStep<E>(xs: seq<E>, f: E -> set<string>, i: nat)
    requires i < |xs|
    ensures UnionOf(xs[..i + 1], f) == UnionOf(xs[..i], f) + f(xs[i])
  {
    assert xs[..i + 1][..i] == xs[..i];
  }

  /** The set `expanded_terms` after visiting `entries` in order. */
  function CandidatesOf(entries: seq<Entry>, query: string): set<string>
  {
    UnionOf(entries, e => EntryTerms(e, query))
  }

  /** All terms the keyword table offers for `query`. */
  function Candidates(query: string): set<string> {
    CandidatesOf(KeywordMap, query)
  }

  /** `entry` offers `t` to `query`: its keyword matches, `t` is among its first three words, and `t` is not yet in the query. */
  predicate Offers(entry: Entry, query: string, t: string) {
    KeywordMatches(entry.keyword, query) && t in ExpansionTerms(entry.expansion) && !InQuery(t, query)
  }

  lemma EntryTermsIff(entry: Entry, query: string, t: string)
    ensures t in EntryTerms(entry, query) <==> Offers(entry, query, t)
  {
    NewTermsIff(ExpansionTerms(entry.expansion), query);
  }

  /** A term is a candidate iff some entry of the table offers it. */
  lemma CandidatesOfIff(entries: seq<Entry>, query: string, t: string)
    ensures t in CandidatesOf(entries, query) <==> exists i :: 0 <= i < |entries| && Offers(entries[i], query, t)
  {
    UnionOfMembers(entries, e => EntryTerms(e, query), t);
    forall i | 0 <= i < |entries|
      ensures t in EntryTerms(entries[i], query) <==> Offers(entries[i], query, t)
    {
      EntryTermsIff(entries[i], query, t);
    }
  }

  /** `CandidatesOfIff` for the whole keyword table. */
  lemma CandidatesIff(query: string, t: string)
    ensures t in Candidates(query) <==> exists i :: 0 <= i < |KeywordMap| && Offers(KeywordMap[i], query, t)
  {
    CandidatesOfIff(KeywordMap, query, t);
  }

  /** Which terms survive the `[:5]` cut of a set listed in some order: distinct members, as many as there are, up to five. */
  ghost predicate ValidChoice(terms: set<string>, chosen: seq<string>) {
    Distinct(chosen) && Elems(chosen) <= terms && |chosen| == Min(MaxAddedTerms, |terms|)
  }

  /** The returned query for the terms `chosen`: the original, then a space and the terms joined by spaces. */
  function ExpandWith(query: string, chosen: seq<string>): (r: string)
    ensures |query| <= |r| && r[..|query|] == query
    ensures chosen == [] <==> r == query
  {
    if chosen == [] then query else query + " " + Join(chosen, " ")
  }

  /** The query comes back unchanged exactly when no term qualifies. */
  lemma UnchangedIff(query: string, chosen: seq<string>)
    requires ValidChoice(Candidates(query), chosen)
    ensures ExpandWith(query, chosen) == query <==> Candidates(query) == {}
  {
    if Candidates(query) != {} {
      assert 1 <= |Candidates(query)|;
    }
  }

  /** One step of the table walk. */
  lemma CandidatesOfStep(entries: seq<Entry>, query: string, i: nat)
    requires i < |entries|
    ensures CandidatesOf(entries[..i + 1], query) == CandidatesOf(entries[..i], query) + EntryTerms(entries[i], query)
  {
    UnionOfStep(entries, e => EntryTerms(e, query), i);
  }

  /** One word more. */
  lemma NewTermsStep(ts: seq<string>, query: string, j: nat)
    requires j < |ts|
    ensures NewTerms(ts[..j + 1], query) == NewTerms(ts[..j], query) + (if InQuery(ts[j], query) then {} else {ts[j]})
  {
    assert ts[..j + 1][..j] == ts[..j];
  }

  /** The inner loop of `expand_query`: add the qualifying leading words of one matching entry. */
  method AddEntryTerms(terms: set<string>, entry: Entry, query: string, queryLower: string) returns (r: set<string>)
    requires queryLower == Lower(query)
    ensures r == terms + EntryTerms(entry, query)
  {
    r := terms;
    if Contains(queryLower, Lower(entry.keyword)) || Contains(query, entry.keyword) {
      var expansionTerms := Take(Split(entry.expansion), TermsPerKeyword);
      for j := 0 to |expansionTerms|
        invariant r == terms + NewTerms(expansionTerms[..j], query)
      {
        NewTermsStep(expansionTerms, query, j);
        var term := expansionTerms[j];
        if !Contains(queryLower, Lower(term)) && !Contains(query, term) {
          r := r + {term};
        }
      }
      assert expansionTerms[..|expansionTerms|] == expansionTerms;
      NewTermsIff(expansionTerms, query);
    }
  }

  /** The loops of `expand_query`: walk the table in order, gathering `expanded_terms`. */
  method CollectTerms(query: string) returns (terms: set<string>)
    ensures terms == Candidates(query)
  {
    terms := {};
    var queryLower := Lower(query);
    for i := 0 to |KeywordMap|
      invariant terms == CandidatesOf(KeywordMap[..i], query)
    {
      CandidatesOfStep(KeywordMap, query, i);
      terms := AddEntryTerms(terms, KeywordMap[i], query, queryLower);
    }
    assert KeywordMap[..|KeywordMap|] == KeywordMap;
  }

  /** `list(expanded_terms)[:5]`: the set listed in some order, cut to five. */
  method FirstTerms(terms: set<string>) returns (chosen: seq<string>)
    ensures ValidChoice(terms, chosen)
  {
    var listed := ListOfSet(terms);
    DistinctCard(listed);
    chosen := Take(listed, MaxAddedTerms);
    assert Elems(chosen) <= Elems(listed);
  }

  /** `expand_query`: collect candidate terms over the table, then append at most five of them. */
  method ExpandQuery(query: string) returns (r: string)
    ensures exists chosen :: ValidChoice(Candidates(query), chosen) && r == ExpandWith(query, chosen)
  {
    var terms := CollectTerms(query);
    var chosen := FirstTerms(terms);
    if terms != {} {
      r := query + " " + Join(chosen, " ");
    } else {
      r := query;
    }
    assert r == ExpandWith(query, chosen);
  }

  /** A keyword holding a character the query lacks (in either case) does not match it. */
  lemma NoMatchByChar(keyword: string, query: string, c: char)
    requires c in keyword && c !in query && LowerChar(c) !in Lower(query)
    ensures !KeywordMatches(keyword, query)
  {
    var j :| 0 <= j < |keyword| && keyword[j] == c;
    assert Lower(keyword)[j] == LowerChar(c);
    if Contains(Lower(query), Lower(keyword)) {
      ContainsChars(Lower(query), Lower(keyword), LowerChar(c));
    }
    if Contains(query, keyword) {
      ContainsChars(query, keyword, c);
    }
  }
}

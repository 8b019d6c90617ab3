/** The article listing of GET /articles: the handler builds a database query from the
    optional request parameters, and the database returns the articles that satisfy it.
    Both halves are modelled: `BuildQuery` (the handler) and `Satisfies` (the meaning of
    the query document), and `ListingSemantics` states what the composition filters. */
module Listing {
  import opened Documents

  /** `"a,b".split(",")`: the pieces between commas, empty pieces included. */
  function SplitComma(s: string): (parts: seq<string>)
    ensures |parts| >= 1
    ensures forall i :: 0 <= i < |parts| ==> ',' !in parts[i]
  {
    if s == [] then
      [""]
    else
      var rest := SplitComma(s[1..]);
      if s[0] == ',' then [""] + rest
      else [[s[0]] + rest[0]] + rest[1..]
  }

  /** `parts.join(",")`, the inverse of `SplitComma`. */
  function JoinComma(parts: seq<string>): string
    requires |parts| >= 1
  {
    if |parts| == 1 then parts[0] else parts[0] + "," + JoinComma(parts[1..])
  }

  /** Joining the pieces of a split gives back the parameter. */
  lemma {:induction false} JoinSplit(s: string)
    ensures JoinComma(SplitComma(s)) == s
  {
    if s != [] {
      var rest := SplitComma(s[1..]);
      JoinSplit(s[1..]);
      if s[0] == ',' {
        assert SplitComma(s) == [""] + rest;
        assert ([""] + rest)[1..] == rest;
      } else {
        var parts := [[s[0]] + rest[0]] + rest[1..];
        assert SplitComma(s) == parts;
        if |rest| == 1 {
          assert JoinComma(parts) == [s[0]] + rest[0];
        } else {
          assert parts[1..] == rest[1..];
          assert JoinComma(rest) == rest[0] + "," + JoinComma(rest[1..]);
        }
      }
    }
  }

  /** Splitting a comma-free prefix followed by any text. */
  lemma {:induction false} SplitPrefix(p: string, t: string)
    requires ',' !in p
    ensures SplitComma(p + t) == [p + SplitComma(t)[0]] + SplitComma(t)[1..]
  {
    if p != [] {
      assert (p + t)[1..] == p[1..] + t;
      assert (p + t)[0] == p[0] && p[0] != ',';
      SplitPrefix(p[1..], t);
      assert [p[0]] + (p[1..] + SplitComma(t)[0]) == p + SplitComma(t)[0];
    } else {
      var parts := SplitComma(t);
      assert p + t == t && p + parts[0] == parts[0];
      assert parts == [parts[0]] + parts[1..];
    }
  }

  /** Splitting a join of comma-free pieces gives back the pieces. */
  lemma {:induction false} SplitJoin(parts: seq<string>)
    requires |parts| >= 1
    requires forall i :: 0 <= i < |parts| ==> ',' !in parts[i]
    ensures SplitComma(JoinComma(parts)) == parts
  {
    if |parts| == 1 {
      SplitPrefix(parts[0], "");
      assert parts[0] + "" == parts[0];
    } else {
      var tail := JoinComma(parts[1..]);
      SplitJoin(parts[1..]);
      assert parts[0] + "," + tail == parts[0] + ("," + tail);
      SplitPrefix(parts[0], "," + tail);
      assert ("," + tail)[1..] == tail;
      assert SplitComma("," + tail) == [""] + parts[1..];
      assert parts[0] + "" == parts[0];
    }
  }

  function LowerAscii(c: char): char {
    if 'A' <= c <= 'Z' then (c as int - 'A' as int + 'a' as int) as char else c
  }

  function Folded(s: string): (r: string)
    ensures |r| == |s|
    ensures forall i :: 0 <= i < |s| ==> r[i] == LowerAscii(s[i])
  {
    seq(|s|, i requires 0 <= i < |s| => LowerAscii(s[i]))
  }

  predicate MatchesAt(text: string, pattern: string, i: int) {
    0 <= i <= |text| - |pattern| && Folded(text[i..i + |pattern|]) == Folded(pattern)
  }

  /** The `{ $regex: search, $options: "i" }` title condition, with the search text taken
      literally and letters compared without regard to (ASCII) case. */
  function ContainsIgnoringCase(text: string, pattern: string): (found: bool)
    ensures pattern == [] ==> found
    ensures found ==> |pattern| <= |text|
  {
    assert pattern == [] ==> MatchesAt(text, pattern, 0);
    exists i :: 0 <= i <= |text| - |pattern| && MatchesAt(text, pattern, i)
  }

  /** The title search does not depend on the case of the search text: two search texts that
      agree up to case find the same titles. */
  lemma SearchIgnoresCase(text: string, p: string, q: string)
    requires Folded(p) == Folded(q)
    ensures ContainsIgnoringCase(text, p) <==> ContainsIgnoringCase(text, q)
  {
    assert |p| == |Folded(p)| == |Folded(q)| == |q|;
    forall i ensures MatchesAt(text, p, i) <==> MatchesAt(text, q, i) {
    }
  }

  /** A title that contains the search text literally is found. */
  lemma {:induction false} LiteralOccurrenceIsFound(text: string, pattern: string, i: nat)
    requires i + |pattern| <= |text| && text[i..i + |pattern|] == pattern
    ensures ContainsIgnoringCase(text, pattern)
  {
    assert MatchesAt(text, pattern, i);
  }

  /** The query parameters of GET /articles; every one of them may be missing. */
  datatype ListParams = ListParams(
    search: Option<string>,
    publisher: Option<string>,
    tags: Option<string>,
    status: Option<string>,
    email: Option<string>)

  /** The query document the handler builds: a `Some` field is a constraint. */
  datatype Query = Query(
    isApproved: Option<bool>,
    isDeclined: Option<bool>,
    titleLike: Option<string>,
    publisher: Option<string>,
    tagsIn: Option<seq<string>>,
    authorEmail: Option<string>)

  /** The handler's construction of the query, field by field: a moderation condition for
      each of the three known statuses, and a title, publisher, tag or author condition
      exactly when that parameter is present and not empty, carrying the parameter's text
      (the tag list splits it at commas). */
  function BuildQuery(p: ListParams): (q: Query)
    ensures q.isApproved.Some? || q.isDeclined.Some? <==>
              p.status == Some("approved") || p.status == Some("pending") || p.status == Some("declined")
    ensures q.titleLike.Some? <==> Truthy(p.search)
    ensures q.titleLike.Some? ==> q.titleLike == p.search
    ensures q.publisher.Some? <==> Truthy(p.publisher)
    ensures q.publisher.Some? ==> q.publisher == p.publisher
    ensures q.tagsIn.Some? <==> Truthy(p.tags)
    ensures q.tagsIn.Some? ==> |q.tagsIn.value| >= 1 && JoinComma(q.tagsIn.value) == p.tags.value
    ensures q.authorEmail.Some? <==> Truthy(p.email)
    ensures q.authorEmail.Some? ==> q.authorEmail == p.email
  {
    Query(
      if p.status == Some("approved") then Some(true)
      else if p.status == Some("pending") then Some(false)
      else None,
      if p.status == Some("pending") then Some(false)
      else if p.status == Some("declined") then Some(true)
      else None,
      if Truthy(p.search) then p.search else None,
      if Truthy(p.publisher) then p.publisher else None,
      if Truthy(p.tags) then JoinSplit(p.tags.value); Some(SplitComma(p.tags.value)) else None,
      if Truthy(p.email) then p.email else None)
  }

  /** Whether an article's tags contain one of the wanted tags (`$in` on an array field). */
  predicate AnyTag(tags: Option<seq<string>>, wanted: seq<string>) {
    tags.Some? && exists t :: t in wanted && t in tags.value
  }

  /** Whether the database returns an article for a query: every constraint holds. An
      equality constraint is not met by an absent field. */
  function Satisfies(a: Article, q: Query): (holds: bool)
    ensures q == Query(None, None, None, None, None, None) ==> holds
    ensures q.isApproved.Some? && a.isApproved.None? ==> !holds
    ensures q.isDeclined.Some? && a.isDeclined.None? ==> !holds
    ensures q.publisher.Some? && a.publisher.None? ==> !holds
    ensures q.tagsIn.Some? && a.tags.None? ==> !holds
  {
    && (q.isApproved.Some? ==> a.isApproved == q.isApproved)
    && (q.isDeclined.Some? ==> a.isDeclined == q.isDeclined)
    && (q.titleLike.Some? ==> a.title.Some? && ContainsIgnoringCase(a.title.value, q.titleLike.value))
    && (q.publisher.Some? ==> a.publisher == q.publisher)
    && (q.tagsIn.Some? ==> AnyTag(a.tags, q.tagsIn.value))
    && (q.authorEmail.Some? ==> q.authorEmail == Some(a.authorEmail))
  }

  /** The moderation condition a `status` parameter stands for. */
  predicate StatusHolds(a: Article, status: Option<string>) {
    if status == Some("approved") then a.isApproved == Some(true)
    else if status == Some("pending") then a.isApproved == Some(false) && a.isDeclined == Some(false)
    else if status == Some("declined") then a.isDeclined == Some(true)
    else true
  }

  /** What the listing keeps, parameter by parameter: the status condition; a title
      containing the search text; the exact publisher; at least one of the comma-separated
      tags; the exact author email. A missing or empty parameter, and a status other than
      "approved", "pending" and "declined", constrains nothing; all conditions must hold
      together. */
  function Listed(a: Article, p: ListParams): (listed: bool)
    ensures StatusHolds(a, p.status) && !Truthy(p.search) && !Truthy(p.publisher) && !Truthy(p.tags) && !Truthy(p.email) ==> listed
    ensures Truthy(p.search) && a.title.None? ==> !listed
    ensures Truthy(p.tags) && a.tags.None? ==> !listed
  {
    && StatusHolds(a, p.status)
    && (Truthy(p.search) ==> a.title.Some? && ContainsIgnoringCase(a.title.value, p.search.value))
    && (Truthy(p.publisher) ==> a.publisher == p.publisher)
    && (Truthy(p.tags) ==> a.tags.Some? && exists t :: t in SplitComma(p.tags.value) && t in a.tags.value)
    && (Truthy(p.email) ==> a.authorEmail == p.email.value)
  }

  /** The query the handler builds selects exactly the articles `Listed` describes. */
  lemma ListingSemantics(a: Article, p: ListParams)
    ensures Satisfies(a, BuildQuery(p)) <==> Listed(a, p)
  {
  }

  /** A status other than the three the handler knows is ignored. */
  lemma UnknownStatusIsIgnored(a: Article, p: ListParams)
    requires p.status != Some("approved") && p.status != Some("pending") && p.status != Some("declined")
    ensures Satisfies(a, BuildQuery(p)) == Satisfies(a, BuildQuery(p.(status := None)))
  {
  }

  /** The articles `find(query)` returns. */
  function Select(articles: map<Id, Article>, q: Query): (r: map<Id, Article>)
    ensures r.Keys <= articles.Keys
    ensures forall id :: id in r ==> r[id] == articles[id] && Satisfies(articles[id], q)
    ensures forall id :: id in articles && Satisfies(articles[id], q) ==> id in r
  {
    map id | id in articles && Satisfies(articles[id], q) :: articles[id]
  }

  /** A parameter list that asks only for a moderation status. */
  function StatusOnly(status: string): ListParams {
    ListParams(None, None, None, Some(status), None)
  }
}

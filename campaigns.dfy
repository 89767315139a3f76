/**
 * The campaign history page: its query-string sanitisers, the Prisma filter it builds, the
 * count and the page of rows it reads (newest first, or FAILED campaigns first), and the paging
 * links it offers.
 */
module Campaigns {
  import opened Options
  import opened Strings
  import opened Numbers
  import opened Store
  import opened Ordering

  const StatusOptions: seq<string> := ["ALL", "DRAFT", "SENDING", "SENT", "FAILED"]

  const MaxPage := 10000
  const DefaultSize := 50
  const MinSize := 10
  const MaxSize := 200

  /** A UTC day in milliseconds: `addDaysUTC(d, 1)` moves a timestamp by exactly this much. */
  const MsPerDay := 86400000

  function Min(a: int, b: int): int { if a <= b then a else b }
  function Max(a: int, b: int): int { if a >= b then a else b }

  // ---------------------------------------------------------------- query-string sanitisers

  /** `clampInt(v, def, min, max)`: the floor of `Number(v)` clamped to the range, or `def` when that is not finite. */
  function ClampInt(v: Option<string>, def: int, min: int, max: int): (r: int)
    ensures !ToNumber(v).Finite? ==> r == def
    ensures ToNumber(v).Finite? && min <= max ==> min <= r <= max
    ensures min <= def <= max ==> min <= r <= max
    ensures ToNumber(v).Finite? && min <= ToNumber(v).value.Floor <= max ==> r == ToNumber(v).value.Floor
    ensures ToNumber(v).Finite? && ToNumber(v).value.Floor < min <= max ==> r == min
    ensures ToNumber(v).Finite? && ToNumber(v).value.Floor > max ==> r == max
  {
    match ToNumber(v)
    case Finite(x) => Min(max, Max(min, x.Floor))
    case _ => def
  }

  /** An empty or blank parameter (`?page=`) is the number 0, so it is clamped rather than defaulted. */
  lemma ClampIntOfBlank(s: string, def: int, min: int, max: int)
    requires forall i :: 0 <= i < |s| ==> IsWhitespace(s[i])
    requires min <= max
    ensures ClampInt(Some(s), def, min, max) == Max(min, Min(max, 0))
  {
    assert Trim(s) == [];
  }

  /** A parameter written by `String(n)`, as the page's own links write `page` and `size`, reads back as `n`. */
  lemma ClampIntOfDecimalString(n: nat, def: int, min: int, max: int)
    requires min <= n <= max && n < SafeLimit
    ensures ClampInt(Some(DecimalString(n)), def, min, max) == n
  {
    NumberOfDecimalString(n);
    assert (n as real).Floor == n;
  }

  /** `safeStatus(v)`: the upper-cased value when it is one of the options, "ALL" otherwise. */
  function SafeStatus(v: Option<string>): (r: string)
    ensures r in StatusOptions
    ensures r == "ALL" || (v.Some? && ToUpper(v.value) == r)
    ensures v.Some? && ToUpper(v.value) in StatusOptions ==> r == ToUpper(v.value)
  {
    if v.None? || v.value == "" then "ALL"
    else
      var up := ToUpper(v.value);
      if up in StatusOptions then up else "ALL"
  }

  lemma {:induction false} UpperWordIsFixed(s: string)
    requires forall i :: 0 <= i < |s| ==> 'A' <= s[i] <= 'Z'
    ensures ToUpper(s) == s
  {
    assert forall i :: 0 <= i < |s| ==> ToUpper(s)[i] == s[i];
  }

  /** Feeding `safeStatus`'s answer back in gives the same answer. */
  lemma SafeStatusIdempotent(v: Option<string>)
    ensures SafeStatus(Some(SafeStatus(v))) == SafeStatus(v)
  {
    var r := SafeStatus(v);
    assert forall i :: 0 <= i < |r| ==> 'A' <= r[i] <= 'Z';
    UpperWordIsFixed(r);
  }

  /** The match ignores case: a value, its lower case and its upper case give the same status. */
  lemma SafeStatusIgnoresCase(s: string)
    ensures SafeStatus(Some(ToLower(s))) == SafeStatus(Some(s))
    ensures SafeStatus(Some(ToUpper(s))) == SafeStatus(Some(s))
  {
    assert ToUpper(ToLower(s)) == ToUpper(s) by {
      assert forall i :: 0 <= i < |s| ==> ToUpper(ToLower(s))[i] == ToUpper(s)[i];
    }
    ToUpperIdempotent(s);
  }

  function StatusName(s: CampaignStatus): string {
    match s
    case DRAFT => "DRAFT"
    case SENDING => "SENDING"
    case SENT => "SENT"
    case FAILED => "FAILED"
  }

  /** The campaign status an option other than "ALL" names. */
  function StatusOf(option: string): (s: Option<CampaignStatus>)
    ensures s.Some? ==> StatusName(s.value) == option
    ensures s.None? ==> forall t :: StatusName(t) != option
  {
    if option == "DRAFT" then Some(DRAFT)
    else if option == "SENDING" then Some(SENDING)
    else if option == "SENT" then Some(CampaignStatus.SENT)
    else if option == "FAILED" then Some(CampaignStatus.FAILED)
    else None
  }

  /** `(page - 1) * size`: the rows on the pages before `page`. */
  function Skip(page: int, size: int): nat
    requires page >= 1 && size >= 0
  {
    var before: nat := page - 1;
    before * size
  }

  /** The first page starts at row 0, and each page starts where the one before it ends. */
  lemma SkipTiles(page: int, size: int)
    requires page >= 1 && size >= 0
    ensures Skip(1, size) == 0
    ensures Skip(page + 1, size) == Skip(page, size) + size
  {
    var before: nat := page - 1;
    assert (before + 1) * size == before * size + size;
  }

  /** A page of `size >= 1` rows starts on a multiple of `size`, and the page number reads back from its start. */
  lemma SkipIsPageStart(page: int, size: int)
    requires page >= 1 && size >= 1
    ensures Skip(page, size) % size == 0
    ensures Skip(page, size) / size == page - 1
  {
    var before: nat := page - 1;
    DivExact(before, size);
  }

  /** A multiple of `size` divides back exactly. */
  lemma DivExact(n: nat, size: int)
    requires size >= 1
    ensures (n * size) % size == 0 && (n * size) / size == n
  {
    var x := n * size;
    var q, m := x / size, x % size;
    assert x == q * size + m && 0 <= m < size;
    assert (n - q) * size == m;
    if n - q >= 1 {
      MulMonotone(1, n - q, size);
    } else if n - q <= -1 {
      MulMonotone(n - q, -1, size);
    }
  }

  /** Whether `buildQS` keeps a value: defined, and not blank after trimming. */
  predicate Present(v: Option<string>) {
    v.Some? && Trim(v.value) != ""
  }

  function Keys(qs: seq<(string, string)>): seq<string> {
    seq(|qs|, i requires 0 <= i < |qs| => qs[i].0)
  }

  /** `URLSearchParams.set(k, v)`: replace the first `k` entry and drop the others, or append. */
  function SetParam(qs: seq<(string, string)>, k: string, v: string): seq<(string, string)>
    decreases |qs|
  {
    if k !in Keys(qs) then qs + [(k, v)]
    else if qs[0].0 == k then [(k, v)] + RemoveKey(qs[1..], k)
    else [qs[0]] + SetParam(qs[1..], k, v)
  }

  function RemoveKey(qs: seq<(string, string)>, k: string): seq<(string, string)>
    decreases |qs|
  {
    if qs == [] then []
    else (if qs[0].0 == k then [] else [qs[0]]) + RemoveKey(qs[1..], k)
  }

  lemma {:induction false} RemoveKeyMembers(qs: seq<(string, string)>, k: string)
    ensures forall e :: e in RemoveKey(qs, k) <==> e in qs && e.0 != k
    decreases |qs|
  {
    if qs != [] {
      RemoveKeyMembers(qs[1..], k);
      assert forall e :: e in qs <==> e == qs[0] || e in qs[1..];
    }
  }

  /** After `set(k, v)` every entry for `k` is `(k, v)`, there is one, and every other entry is kept. */
  lemma {:induction false} SetParamSets(qs: seq<(string, string)>, k: string, v: string)
    ensures var r := SetParam(qs, k, v);
      && (k, v) in r
      && (forall e :: e in r && e.0 == k ==> e == (k, v))
      && (forall e: (string, string) :: e.0 != k ==> (e in r <==> e in qs))
    decreases |qs|
  {
    if k !in Keys(qs) {
      assert forall i :: 0 <= i < |qs| ==> Keys(qs)[i] == qs[i].0;
    } else {
      assert forall e :: e in qs <==> e == qs[0] || e in qs[1..];
      if qs[0].0 == k {
        RemoveKeyMembers(qs[1..], k);
      } else {
        SetParamSets(qs[1..], k, v);
      }
    }
  }

  /** The entries `buildQS` keeps, in order, each with its value as given. */
  function Kept(params: seq<(string, Option<string>)>): (qs: seq<(string, string)>)
    ensures |qs| <= |params|
  {
    if params == [] then []
    else
      var last := params[|params| - 1];
      Kept(params[..|params| - 1]) + (if Present(last.1) then [(last.0, last.1.value)] else [])
  }

  /** The keys of a record: pairwise distinct. */
  predicate DistinctKeys(params: seq<(string, Option<string>)>) {
    forall i, j :: 0 <= i < j < |params| ==> params[i].0 != params[j].0
  }

  lemma KeysAppend(a: seq<(string, string)>, b: seq<(string, string)>)
    ensures Keys(a + b) == Keys(a) + Keys(b)
  {
  }

  function ParamKeys(params: seq<(string, Option<string>)>): seq<string> {
    seq(|params|, i requires 0 <= i < |params| => params[i].0)
  }

  /** A key `buildQS` has set is a key of the record. */
  lemma {:induction false} KeptKeysFromParams(params: seq<(string, Option<string>)>, k: string)
    requires k in Keys(Kept(params))
    ensures k in ParamKeys(params)
    decreases |params|
  {
    if params != [] {
      var n := |params| - 1;
      var prefix := Kept(params[..n]);
      var tail := if Present(params[n].1) then [(params[n].0, params[n].1.value)] else [];
      KeysAppend(prefix, tail);
      assert ParamKeys(params) == ParamKeys(params[..n]) + [params[n].0];
      if k in Keys(prefix) {
        KeptKeysFromParams(params[..n], k);
      } else {
        assert Keys(tail) == [params[n].0];
      }
    }
  }

  /** `buildQS(params)` (before serialisation): the non-blank entries, each set once, in order. */
  method BuildQS(params: seq<(string, Option<string>)>) returns (qs: seq<(string, string)>)
    requires DistinctKeys(params)
    ensures qs == Kept(params)
  {
    qs := [];
    var i := 0;
    while i < |params|
      invariant 0 <= i <= |params|
      invariant qs == Kept(params[..i])
    {
      var (k, v) := params[i];
      assert params[..i + 1][..i] == params[..i];
      if v.Some? && Trim(v.value) != "" {
        if k in Keys(qs) {
          KeptKeysFromParams(params[..i], k);
          assert false;
        }
        qs := SetParam(qs, k, v.value);
      }
      i := i + 1;
    }
    assert params[..|params|] == params;
  }

  /** Exactly the present entries are kept, and each is kept with its own value. */
  lemma {:induction false} KeptExactly(params: seq<(string, Option<string>)>, k: string, v: string)
    ensures (k, v) in Kept(params) <==> (k, Some(v)) in params && Trim(v) != ""
    decreases |params|
  {
    if params != [] {
      var n := |params| - 1;
      KeptExactly(params[..n], k, v);
      assert params == params[..n] + [params[n]];
    }
  }

  // ---------------------------------------------------------------- the filter and the queries

  /** The Prisma `where` the page builds; an absent field puts no condition on the rows. */
  datatype Where = Where(
    organizationId: Id, status: Option<CampaignStatus>, notFailed: bool,
    createdFrom: Option<int>, createdBefore: Option<int>, createdBy: Option<Id>, search: Option<string>)

  /** Prisma's `contains` on SQLite, a `LIKE '%q%'`: an infix match that ignores ASCII case. */
  predicate ContainsText(s: string, q: string) {
    Contains(ToLower(s), ToLower(q))
  }

  /** The search finds any infix of the text that equals the search text up to ASCII case. */
  lemma ContainsTextOfInfix(s: string, q: string, i: nat)
    requires i + |q| <= |s| && ToLower(s[i..i + |q|]) == ToLower(q)
    ensures ContainsText(s, q)
  {
    var ls := ToLower(s);
    assert ls[i..i + |q|] == ToLower(s[i..i + |q|]);
    ContainsIsInfix(ls, ToLower(q), i);
  }

  /** Lower-casing the text or the search text does not change whether it matches. */
  lemma ContainsTextIgnoresCase(s: string, q: string)
    ensures ContainsText(ToLower(s), ToLower(q)) == ContainsText(s, q)
  {
    LowerKeepsTrimmed(s);
    LowerKeepsTrimmed(q);
  }

  predicate Matches(c: Campaign, w: Where) {
    && c.organizationId == w.organizationId
    && (w.status.Some? ==> c.status == w.status.value)
    && (w.notFailed ==> c.status != CampaignStatus.FAILED)
    && (w.createdFrom.Some? ==> c.createdAt >= w.createdFrom.value)
    && (w.createdBefore.Some? ==> c.createdAt < w.createdBefore.value)
    && (w.createdBy.Some? ==> c.createdByUserId == w.createdBy.value)
    && (w.search.Some? ==>
          ContainsText(c.subjectSnapshot, w.search.value)
          || (c.templateNameSnapshot.Some? && ContainsText(c.templateNameSnapshot.value, w.search.value)))
  }

  /** The rows matching `w`, in table order. */
  function Select(cs: seq<Campaign>, w: Where): (r: seq<Campaign>)
    ensures |r| <= |cs|
    ensures forall c :: c in r <==> c in cs && Matches(c, w)
  {
    if cs == [] then []
    else
      assert forall c :: c in cs <==> c == cs[0] || c in cs[1..];
      (if Matches(cs[0], w) then [cs[0]] else []) + Select(cs[1..], w)
  }

  function CreatedAt(c: Campaign): int { c.createdAt }

  /** `orderBy: { createdAt: "desc" }` on campaigns. */
  function OrderByCreatedDesc(s: seq<Campaign>): seq<Campaign> {
    SortDesc(s, CreatedAt)
  }

  /** Prisma's `skip`/`take`: the rows after the first `skip`, at most `take` of them. */
  function Slice<T>(s: seq<T>, skip: nat, take: nat): (r: seq<T>)
    ensures |r| <= take
    ensures |r| == take || skip + |r| >= |s|
  {
    if skip >= |s| then [] else s[skip..Min(|s|, skip + take)]
  }

  /** `findMany({ where, orderBy: { createdAt: "desc" }, skip, take })`. */
  function FindMany(cs: seq<Campaign>, w: Where, skip: nat, take: nat): seq<Campaign> {
    Slice(OrderByCreatedDesc(Select(cs, w)), skip, take)
  }

  /** `count({ where })`: at most the table's size, and 0 exactly when no row matches. */
  function Count(cs: seq<Campaign>, w: Where): (n: nat)
    ensures n <= |cs|
    ensures n == 0 <==> forall i :: 0 <= i < |cs| ==> !Matches(cs[i], w)
  {
    var s := Select(cs, w);
    assert s != [] ==> s[0] in s;
    assert forall i :: 0 <= i < |cs| ==> cs[i] in cs;
    |s|
  }

  /** The FAILED rows (`failed`) or the other rows (`!failed`), in their original order. */
  function Part(s: seq<Campaign>, failed: bool): (r: seq<Campaign>)
    ensures |r| <= |s|
  {
    if s == [] then [] else (if (s[0].status == CampaignStatus.FAILED) == failed then [s[0]] else []) + Part(s[1..], failed)
  }

  /** A group holds exactly the rows of its status group. */
  lemma {:induction false} PartMembers(s: seq<Campaign>, failed: bool)
    ensures forall c :: c in Part(s, failed) <==> c in s && (c.status == CampaignStatus.FAILED) == failed
    decreases |s|
  {
    if s != [] {
      PartMembers(s[1..], failed);
      assert forall c :: c in s <==> c == s[0] || c in s[1..];
    }
  }

  lemma {:induction false} PartHead(s: seq<Campaign>, failed: bool)
    requires Descending(s, CreatedAt) && Part(s, failed) != []
    ensures Part(s, failed)[0].createdAt <= s[0].createdAt
    decreases |s|
  {
    if (s[0].status == CampaignStatus.FAILED) != failed {
      TailDescending(s, CreatedAt);
      PartHead(s[1..], failed);
      assert s[1..][0] == s[1];
    }
  }

  lemma {:induction false} PartInsert(c: Campaign, s: seq<Campaign>, failed: bool)
    requires Descending(s, CreatedAt)
    ensures Part(InsertDesc(c, s, CreatedAt), failed) ==
      if (c.status == CampaignStatus.FAILED) == failed then InsertDesc(c, Part(s, failed), CreatedAt) else Part(s, failed)
    decreases |s|
  {
    if s == [] || s[0].createdAt <= c.createdAt {
      assert ([c] + s)[1..] == s;
      if s != [] && Part(s, failed) != [] {
        PartHead(s, failed);
      }
    } else {
      TailDescending(s, CreatedAt);
      assert ([s[0]] + InsertDesc(c, s[1..], CreatedAt))[1..] == InsertDesc(c, s[1..], CreatedAt);
      PartInsert(c, s[1..], failed);
      var p := Part(s[1..], failed);
      if (s[0].status == CampaignStatus.FAILED) == failed {
        assert Part(s, failed) == [s[0]] + p;
        assert ([s[0]] + p)[1..] == p;
        assert InsertDesc(c, [s[0]] + p, CreatedAt) == [s[0]] + InsertDesc(c, p, CreatedAt);
      } else {
        assert Part(s, failed) == p;
      }
    }
  }

  /** Ordering and then taking one status group is the same as taking the group and ordering it. */
  lemma {:induction false} PartOfOrder(s: seq<Campaign>, failed: bool)
    ensures Part(OrderByCreatedDesc(s), failed) == OrderByCreatedDesc(Part(s, failed))
    decreases |s|
  {
    if s != [] {
      PartOfOrder(s[1..], failed);
      SortIsSortedPermutation(s[1..], CreatedAt);
      PartInsert(s[0], OrderByCreatedDesc(s[1..]), failed);
      var p := Part(s[1..], failed);
      if (s[0].status == CampaignStatus.FAILED) == failed {
        assert Part(s, failed) == [s[0]] + p;
        assert ([s[0]] + p)[1..] == p;
        assert OrderByCreatedDesc([s[0]] + p) == InsertDesc(s[0], OrderByCreatedDesc(p), CreatedAt);
      } else {
        assert Part(s, failed) == p;
      }
    }
  }

  lemma {:induction false} PartSplits(s: seq<Campaign>)
    ensures |Part(s, true)| + |Part(s, false)| == |s|
    ensures multiset(Part(s, true)) + multiset(Part(s, false)) == multiset(s)
    decreases |s|
  {
    if s != [] {
      PartSplits(s[1..]);
      assert s == [s[0]] + s[1..];
    }
  }

  /**
   * The failed-first order is the newest-first order with the FAILED rows moved ahead: each group
   * keeps its newest-first order, and no row is lost or repeated.
   */
  lemma FailedFirstRegroups(s: seq<Campaign>)
    ensures OrderByCreatedDesc(Part(s, true)) + OrderByCreatedDesc(Part(s, false)) ==
      Part(OrderByCreatedDesc(s), true) + Part(OrderByCreatedDesc(s), false)
    ensures multiset(OrderByCreatedDesc(Part(s, true)) + OrderByCreatedDesc(Part(s, false))) == multiset(s)
  {
    PartOfOrder(s, true);
    PartOfOrder(s, false);
    PartSplits(OrderByCreatedDesc(s));
    SortIsSortedPermutation(s, CreatedAt);
  }

  lemma {:induction false} SelectWithStatus(cs: seq<Campaign>, w: Where)
    requires w.status.None?
    ensures Select(cs, w.(status := Some(CampaignStatus.FAILED))) == Part(Select(cs, w), true)
    decreases |cs|
  {
    if cs != [] {
      var w2 := w.(status := Some(CampaignStatus.FAILED));
      SelectWithStatus(cs[1..], w);
      assert Matches(cs[0], w2) <==> Matches(cs[0], w) && cs[0].status == CampaignStatus.FAILED;
      var rest := Select(cs[1..], w);
      assert Select(cs, w2) == (if Matches(cs[0], w2) then [cs[0]] else []) + Part(rest, true);
      if Matches(cs[0], w) {
        assert Select(cs, w) == [cs[0]] + rest;
        assert ([cs[0]] + rest)[1..] == rest;
        assert Part([cs[0]] + rest, true) == (if cs[0].status == CampaignStatus.FAILED then [cs[0]] else []) + Part(rest, true);
      } else {
        assert Select(cs, w) == rest;
      }
    }
  }

  lemma {:induction false} SelectWithoutFailed(cs: seq<Campaign>, w: Where)
    ensures Select(cs, w.(notFailed := true)) == Part(Select(cs, w), false)
    decreases |cs|
  {
    if cs != [] {
      var w2 := w.(notFailed := true);
      SelectWithoutFailed(cs[1..], w);
      assert Matches(cs[0], w2) <==> Matches(cs[0], w) && cs[0].status != CampaignStatus.FAILED;
      var rest := Select(cs[1..], w);
      assert Select(cs, w2) == (if Matches(cs[0], w2) then [cs[0]] else []) + Part(rest, false);
      if Matches(cs[0], w) {
        assert Select(cs, w) == [cs[0]] + rest;
        assert ([cs[0]] + rest)[1..] == rest;
        assert Part([cs[0]] + rest, false) == (if cs[0].status != CampaignStatus.FAILED then [cs[0]] else []) + Part(rest, false);
      } else {
        assert Select(cs, w) == rest;
      }
    }
  }

  // ---------------------------------------------------------------- the failed-first page

  /** Where a failed-first page starts: inside the FAILED segment, or past it. */
  datatype Segments = InFailed(takeFailed: nat, takeNonFailed: nat) | PastFailed(nonFailedSkip: nat)

  /** `inFailedSegment`, `takeFailed`, `takeNonFailed` and `nonFailedSkip`. */
  function SplitPage(skip: nat, size: nat, failedCount: nat): (r: Segments)
    ensures r.InFailed? <==> skip < failedCount
    ensures r.InFailed? ==> r.takeFailed + r.takeNonFailed == size && r.takeFailed <= failedCount - skip
    ensures r.InFailed? && size >= 1 ==> r.takeFailed >= 1
    ensures r.InFailed? && r.takeNonFailed > 0 ==> skip + r.takeFailed == failedCount
    ensures r.PastFailed? ==> skip == failedCount + r.nonFailedSkip
  {
    if skip < failedCount then
      var takeFailed := Min(size, failedCount - skip);
      InFailed(takeFailed, size - takeFailed)
    else PastFailed(skip - failedCount)
  }

  /** The page the two segment queries assemble. */
  function FailedFirstPage(failedRows: seq<Campaign>, otherRows: seq<Campaign>, skip: nat, size: nat): seq<Campaign> {
    match SplitPage(skip, size, |failedRows|)
    case InFailed(takeFailed, takeNonFailed) =>
      Slice(failedRows, skip, takeFailed) + (if takeNonFailed > 0 then Slice(otherRows, 0, takeNonFailed) else [])
    case PastFailed(nonFailedSkip) => Slice(otherRows, nonFailedSkip, size)
  }

  /** The two-segment page is the window [skip, skip + size) of the FAILED rows followed by the others. */
  lemma WindowInFailed(a: seq<Campaign>, b: seq<Campaign>, skip: nat, size: nat, tf: nat, tn: nat)
    requires skip < |a| && tf == Min(size, |a| - skip) && tn == size - tf
    ensures Slice(a, skip, tf) + (if tn > 0 then Slice(b, 0, tn) else []) == Slice(a + b, skip, size)
  {
    var ab := a + b;
    assert Slice(a, skip, tf) == ab[skip..skip + tf];
    if tn > 0 {
      var m := Min(|b|, tn);
      assert Slice(b, 0, tn) == ab[|a|..|a| + m];
      assert Slice(ab, skip, size) == ab[skip..skip + tf] + ab[|a|..|a| + m];
    }
  }

  lemma WindowPastFailed(a: seq<Campaign>, b: seq<Campaign>, skip: nat, size: nat)
    requires skip >= |a|
    ensures Slice(b, skip - |a|, size) == Slice(a + b, skip, size)
  {
    var ns := skip - |a|;
    if ns < |b| {
      var e := Min(|b|, ns + size);
      RightPart(a, b, ns, e);
      assert Min(|a + b|, skip + size) == |a| + e;
    }
  }

  /** A window of `a + b` that lies past `a` is a window of `b`. */
  lemma RightPart<T>(a: seq<T>, b: seq<T>, lo: nat, hi: nat)
    requires lo <= hi <= |b|
    ensures (a + b)[|a| + lo..|a| + hi] == b[lo..hi]
  {
  }

  /** The two-segment page is the window [skip, skip + size) of the FAILED rows followed by the others. */
  lemma FailedFirstPageIsWindow(a: seq<Campaign>, b: seq<Campaign>, skip: nat, size: nat)
    ensures FailedFirstPage(a, b, skip, size) == Slice(a + b, skip, size)
  {
    match SplitPage(skip, size, |a|)
    case InFailed(tf, tn) => WindowInFailed(a, b, skip, size, tf, tn);
    case PastFailed(ns) => WindowPastFailed(a, b, skip, size);
  }

  // ---------------------------------------------------------------- the page

  /** The sanitised filters: session org, status option, parsed dates, trimmed creator and search text. */
  datatype Filters = Filters(
    organizationId: Id, status: string, fromDate: Option<int>, toDate: Option<int>,
    createdBy: string, q: string)

  /** Whether the page lists campaign `c` under filters `f`. */
  predicate Listed(c: Campaign, f: Filters) {
    && c.organizationId == f.organizationId
    && (f.status != "ALL" ==> StatusName(c.status) == f.status)
    && (f.fromDate.Some? ==> c.createdAt >= f.fromDate.value)
    && (f.toDate.Some? ==> c.createdAt < f.toDate.value + MsPerDay)
    && (f.createdBy != "" ==> c.createdByUserId == f.createdBy)
    && (f.q != "" ==>
          ContainsText(c.subjectSnapshot, f.q)
          || (c.templateNameSnapshot.Some? && ContainsText(c.templateNameSnapshot.value, f.q)))
  }

  /** The listed campaigns of the table, in table order. */
  function Shown(cs: seq<Campaign>, f: Filters): (r: seq<Campaign>)
    ensures |r| <= |cs|
    ensures forall c :: c in r <==> c in cs && Listed(c, f)
  {
    if cs == [] then []
    else
      assert forall c :: c in cs <==> c == cs[0] || c in cs[1..];
      (if Listed(cs[0], f) then [cs[0]] else []) + Shown(cs[1..], f)
  }

  /** `baseWhere`, built field by field. */
  method BuildBaseWhere(f: Filters) returns (w: Where)
    requires f.status in StatusOptions
    ensures forall c :: Matches(c, w) <==> Listed(c, f)
    ensures w.status.None? <==> f.status == "ALL"
    ensures !w.notFailed
  {
    w := Where(f.organizationId, None, false, None, None, None, None);
    if f.status != "ALL" {
      w := w.(status := StatusOf(f.status));
    }
    if f.fromDate.Some? || f.toDate.Some? {
      if f.fromDate.Some? {
        w := w.(createdFrom := f.fromDate);
      }
      if f.toDate.Some? {
        w := w.(createdBefore := Some(f.toDate.value + MsPerDay));
      }
    }
    if f.createdBy != "" {
      w := w.(createdBy := Some(f.createdBy));
    }
    if f.q != "" {
      w := w.(search := Some(f.q));
    }
    assert forall c :: Matches(c, w) <==> Listed(c, f) by {
      forall c ensures Matches(c, w) <==> Listed(c, f) {
        if f.status != "ALL" {
          assert (c.status == w.status.value) <==> StatusName(c.status) == f.status;
        }
      }
    }
  }

  lemma {:induction false} SelectIsShown(cs: seq<Campaign>, w: Where, f: Filters)
    requires forall c :: Matches(c, w) <==> Listed(c, f)
    ensures Select(cs, w) == Shown(cs, f)
    decreases |cs|
  {
    if cs != [] {
      SelectIsShown(cs[1..], w, f);
    }
  }

  /** The query-string parameters the list reads (`from`/`to` arrive already parsed, `topN` is not modelled). */
  datatype SearchParams = SearchParams(
    q: Option<string>, status: Option<string>, page: Option<string>, size: Option<string>,
    failedFirst: Option<string>, createdBy: Option<string>)

  /**
   * The sanitised filters of lines 63-65: `q` and `createdBy` trimmed, empty when absent or blank,
   * and kept as given when they are already trimmed; the status one of the options.
   */
  function FiltersOf(org: Id, sp: SearchParams, fromDate: Option<int>, toDate: Option<int>): (f: Filters)
    ensures f.organizationId == org && f.fromDate == fromDate && f.toDate == toDate
    ensures f.status in StatusOptions && f.status == SafeStatus(sp.status)
    ensures IsTrimmed(f.q) && IsTrimmed(f.createdBy)
    ensures f.q == "" <==> sp.q.None? || forall i :: 0 <= i < |sp.q.value| ==> IsWhitespace(sp.q.value[i])
    ensures f.createdBy == "" <==>
      sp.createdBy.None? || forall i :: 0 <= i < |sp.createdBy.value| ==> IsWhitespace(sp.createdBy.value[i])
    ensures sp.q.Some? && IsTrimmed(sp.q.value) ==> f.q == sp.q.value
    ensures sp.createdBy.Some? && IsTrimmed(sp.createdBy.value) ==> f.createdBy == sp.createdBy.value
  {
    Filters(org, SafeStatus(sp.status), fromDate, toDate, Trim(sp.createdBy.GetOr("")), Trim(sp.q.GetOr("")))
  }

  /**
   * `baseQS` carries `q`, `createdBy` and `status` as sanitised, each left out when it is empty or
   * "ALL"; the next request that reads them back from a prev/next link gets the same filters.
   */
  lemma FiltersRoundTrip(org: Id, sp: SearchParams, sp2: SearchParams, fromDate: Option<int>, toDate: Option<int>)
    requires var f := FiltersOf(org, sp, fromDate, toDate);
      && sp2.q == (if f.q == "" then None else Some(f.q))
      && sp2.createdBy == (if f.createdBy == "" then None else Some(f.createdBy))
      && sp2.status == (if f.status == "ALL" then None else Some(f.status))
    ensures FiltersOf(org, sp2, fromDate, toDate) == FiltersOf(org, sp, fromDate, toDate)
  {
    SafeStatusIdempotent(sp.status);
  }

  /** `Math.max(1, Math.ceil(total / size))`: the fewest pages of `size` rows that hold `total` rows, at least one. */
  function TotalPages(total: nat, size: int): (r: int)
    requires size >= 1
    ensures r >= 1 && total <= r * size
    ensures r == 1 || (r - 1) * size < total
  {
    var q := (total + size - 1) / size;
    assert q * size <= total + size - 1 < (q + 1) * size;
    Max(1, q)
  }

  /** There is a next page exactly when rows remain after this one. */
  lemma NextPageIffMoreRows(page: int, total: nat, size: int)
    requires page >= 1 && size >= 1
    ensures page < TotalPages(total, size) <==> page * size < total
  {
    var t := TotalPages(total, size);
    if page < t {
      MulMonotone(page, t - 1, size);
    } else {
      MulMonotone(t, page, size);
    }
  }

  lemma MulMonotone(x: int, y: int, size: int)
    requires x <= y && size >= 1
    ensures x * size <= y * size
  {
  }

  datatype PageView =
    | RedirectToLogin
    | Listing(rows: seq<Campaign>, totalCount: nat, page: int, size: int, totalPages: int,
              prevPage: Option<int>, nextPage: Option<int>)

  /** The rows the page shows for the listed campaigns `shown`. */
  function PageRows(shown: seq<Campaign>, failedFirst: bool, skip: nat, size: nat): seq<Campaign> {
    if failedFirst then Slice(OrderByCreatedDesc(Part(shown, true)) + OrderByCreatedDesc(Part(shown, false)), skip, size)
    else Slice(OrderByCreatedDesc(shown), skip, size)
  }

  /** A page of `s` holds rows of `s`, and a page of a newest-first list is newest first. */
  lemma SliceWithin(s: seq<Campaign>, skip: nat, take: nat)
    ensures forall c :: c in Slice(s, skip, take) ==> c in s
    ensures Descending(s, CreatedAt) ==> Descending(Slice(s, skip, take), CreatedAt)
    ensures FailedAhead(s) ==> FailedAhead(Slice(s, skip, take))
  {
    if skip < |s| {
      var e := Min(|s|, skip + take);
      assert forall i :: 0 <= i < e - skip ==> s[skip..e][i] == s[skip + i];
    }
  }

  /** No FAILED row comes after a row of another status. */
  predicate FailedAhead(s: seq<Campaign>) {
    forall i, j :: 0 <= i < j < |s| && s[j].status == CampaignStatus.FAILED ==> s[i].status == CampaignStatus.FAILED
  }

  /** The rows of a status group, newest first, are rows of that group. */
  lemma OrderedPartMembers(s: seq<Campaign>, failed: bool)
    ensures forall c :: c in OrderByCreatedDesc(Part(s, failed)) <==>
      c in s && (c.status == CampaignStatus.FAILED) == failed
  {
    PartMembers(s, failed);
    SortIsSortedPermutation(Part(s, failed), CreatedAt);
    assert forall c :: c in OrderByCreatedDesc(Part(s, failed)) <==> c in multiset(Part(s, failed));
  }

  /** `findMany` with `skip`/`take`: at most `take` matching rows of the table, newest first. */
  lemma FindManyIsSortedPage(cs: seq<Campaign>, w: Where, skip: nat, take: nat)
    ensures var r := FindMany(cs, w, skip, take);
      && |r| <= take
      && (forall c :: c in r ==> c in cs && Matches(c, w))
      && Descending(r, CreatedAt)
  {
    var s := OrderByCreatedDesc(Select(cs, w));
    SortIsSortedPermutation(Select(cs, w), CreatedAt);
    assert forall c :: c in s ==> c in multiset(Select(cs, w));
    SliceWithin(s, skip, take);
  }

  /**
   * A page holds at most `size` listed campaigns. Without failed-first it is newest first; with it,
   * no FAILED row comes after a row of another status.
   */
  lemma PageRowsAreShown(shown: seq<Campaign>, failedFirst: bool, skip: nat, size: nat)
    ensures var r := PageRows(shown, failedFirst, skip, size);
      && |r| <= size
      && (forall c :: c in r ==> c in shown)
      && (!failedFirst ==> Descending(r, CreatedAt))
      && (failedFirst ==> FailedAhead(r))
  {
    if failedFirst {
      var a, b := OrderByCreatedDesc(Part(shown, true)), OrderByCreatedDesc(Part(shown, false));
      OrderedPartMembers(shown, true);
      OrderedPartMembers(shown, false);
      var ab := a + b;
      assert forall k :: |a| <= k < |ab| ==> ab[k] == b[k - |a|] && ab[k] in b;
      forall i, j | 0 <= i < j < |ab| && ab[j].status == CampaignStatus.FAILED
        ensures ab[i].status == CampaignStatus.FAILED
      {
        assert i < |a|;
        assert ab[i] == a[i] && ab[i] in a;
      }
      assert forall c :: c in ab ==> c in a || c in b;
      SliceWithin(ab, skip, size);
    } else {
      SortIsSortedPermutation(shown, CreatedAt);
      assert forall c :: c in OrderByCreatedDesc(shown) ==> c in multiset(shown);
      SliceWithin(OrderByCreatedDesc(shown), skip, size);
    }
  }

  /** The row count for the paging links, from one query or from the two segment counts. */
  method CountRows(cs: seq<Campaign>, baseWhere: Where, useSegments: bool, failedFirst: bool)
    returns (totalCount: nat, failedCount: nat)
    requires useSegments ==> failedFirst && baseWhere.status.None?
    ensures totalCount == Count(cs, baseWhere)
    ensures failedCount == if useSegments then |Part(Select(cs, baseWhere), true)| else 0
  {
    totalCount, failedCount := 0, 0;
    var nonFailedCount := 0;
    if failedFirst {
      var failedWhere := baseWhere.(status := Some(CampaignStatus.FAILED));
      var nonFailedWhere := if useSegments then baseWhere.(notFailed := true) else baseWhere;
      if !useSegments {
        totalCount := Count(cs, baseWhere);
      } else {
        failedCount, nonFailedCount := Count(cs, failedWhere), Count(cs, nonFailedWhere);
        totalCount := failedCount + nonFailedCount;
        SelectWithStatus(cs, baseWhere);
        SelectWithoutFailed(cs, baseWhere);
        PartSplits(Select(cs, baseWhere));
      }
    } else {
      totalCount := Count(cs, baseWhere);
    }
  }

  /** The page of rows: one newest-first query, or the FAILED segment and then the others. */
  method ListRows(cs: seq<Campaign>, baseWhere: Where, useSegments: bool, failedCount: nat, skip: nat, size: nat)
    returns (rows: seq<Campaign>)
    requires useSegments ==> baseWhere.status.None? && failedCount == |Part(Select(cs, baseWhere), true)|
    ensures rows == PageRows(Select(cs, baseWhere), useSegments, skip, size)
  {
    rows := [];
    if !useSegments {
      rows := FindMany(cs, baseWhere, skip, size);
    } else {
      var failedWhere := baseWhere.(status := Some(CampaignStatus.FAILED));
      var nonFailedWhere := baseWhere.(notFailed := true);
      var s := Select(cs, baseWhere);
      SelectWithStatus(cs, baseWhere);
      SelectWithoutFailed(cs, baseWhere);
      FailedFirstPageIsWindow(OrderByCreatedDesc(Part(s, true)), OrderByCreatedDesc(Part(s, false)), skip, size);
      match SplitPage(skip, size, failedCount)
      case InFailed(takeFailed, takeNonFailed) =>
        var failedRows := FindMany(cs, failedWhere, skip, takeFailed);
        var nonFailedRows := if takeNonFailed > 0 then FindMany(cs, nonFailedWhere, 0, takeNonFailed) else [];
        rows := failedRows + nonFailedRows;
      case PastFailed(nonFailedSkip) =>
        rows := FindMany(cs, nonFailedWhere, nonFailedSkip, size);
    }
  }

  /** `CampaignsPage`: the listing for the session's organisation under the sanitised query string. */
  method ListCampaigns(db: Db, session: Option<Session>, sp: SearchParams, fromDate: Option<int>, toDate: Option<int>)
    returns (view: PageView)
    ensures session.None? <==> view.RedirectToLogin?
    ensures session.Some? ==>
      var f := FiltersOf(session.value.organizationId, sp, fromDate, toDate);
      var shown := Shown(db.campaigns, f);
      var page := ClampInt(sp.page, 1, 1, MaxPage);
      var size := ClampInt(sp.size, DefaultSize, MinSize, MaxSize);
      && view.page == page && view.size == size
      && view.totalCount == |shown|
      && view.rows == PageRows(shown, sp.failedFirst == Some("1") && f.status == "ALL", Skip(page, size), size)
      && view.totalPages == TotalPages(|shown|, size)
      && (view.prevPage.Some? <==> page > 1) && (view.prevPage.Some? ==> view.prevPage.value == page - 1)
      && (view.nextPage.Some? <==> page * size < |shown|) && (view.nextPage.Some? ==> view.nextPage.value == page + 1)
  {
    if session.None? {
      return RedirectToLogin;
    }
    var q := Trim(sp.q.GetOr(""));
    var createdBy := Trim(sp.createdBy.GetOr(""));
    var status := SafeStatus(sp.status);
    var page := ClampInt(sp.page, 1, 1, MaxPage);
    var size := ClampInt(sp.size, DefaultSize, MinSize, MaxSize);
    var skip := Skip(page, size);
    var failedFirst := sp.failedFirst == Some("1");

    var f := Filters(session.value.organizationId, status, fromDate, toDate, createdBy, q);
    var baseWhere := BuildBaseWhere(f);
    SelectIsShown(db.campaigns, baseWhere, f);

    var useSegments := failedFirst && status == "ALL";
    var totalCount, failedCount := CountRows(db.campaigns, baseWhere, useSegments, failedFirst);
    var rows := ListRows(db.campaigns, baseWhere, useSegments, failedCount, skip, size);

    var totalPages := TotalPages(totalCount, size);
    var prevPage := if page > 1 then Some(page - 1) else None;
    var nextPage := if page < totalPages then Some(page + 1) else None;
    NextPageIffMoreRows(page, totalCount, size);
    view := Listing(rows, totalCount, page, size, totalPages, prevPage, nextPage);
  }
}

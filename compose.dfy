/**
 * The pure helpers of the compose page: parsing the `ids` query parameter, the placeholder
 * renderer, and the normalisation of a thrown send error into a message.
 */
module Compose {
  import opened Options
  import opened Strings
  import opened Store

  /** The cap on the number of contact ids one dispatch accepts. */
  const MaxIds: nat := 500

  predicate NoDuplicates<T(==)>(s: seq<T>) {
    forall i, j :: 0 <= i < j < |s| ==> s[i] != s[j]
  }

  /** `.map((s) => s.trim()).filter(Boolean)`: the trimmed fields that are not empty. */
  function TrimmedFields(parts: seq<string>): (r: seq<string>)
    ensures |r| <= |parts|
    ensures forall i :: 0 <= i < |r| ==> r[i] != "" && IsTrimmed(r[i])
    ensures (forall k :: 0 <= k < |parts| ==> ',' !in parts[k]) ==> forall i :: 0 <= i < |r| ==> ',' !in r[i]
  {
    if parts == [] then []
    else
      var t := Trim(parts[0]);
      (if t == "" then [] else [t]) + TrimmedFields(parts[1..])
  }

  /** The fields of the parameter, as `parseIdsParam` sees them before de-duplication. */
  function IdFields(s: string): (r: seq<string>)
    ensures forall i :: 0 <= i < |r| ==> r[i] != "" && IsTrimmed(r[i]) && ',' !in r[i]
  {
    SplitOnCharPieces(s, ',');
    TrimmedFields(SplitOn(s, ","))
  }

  /** The elements of `s` in the order of their first occurrence, each once. */
  function Dedup(s: seq<string>): (r: seq<string>)
    ensures NoDuplicates(r)
    ensures forall x :: x in r <==> x in s
    ensures |r| <= |s|
  {
    if s == [] then []
    else
      var d := Dedup(s[..|s| - 1]);
      assert forall x :: x in s <==> x in s[..|s| - 1] || x == s[|s| - 1] by {
        assert s == s[..|s| - 1] + [s[|s| - 1]];
      }
      if s[|s| - 1] in d then d else d + [s[|s| - 1]]
  }

  function Take(s: seq<string>, n: nat): (r: seq<string>)
    ensures |r| <= n && r <= s
    ensures |s| <= n ==> r == s
  {
    if |s| <= n then s else s[..n]
  }

  /** `parseIdsParam`: split on commas, trim, drop empties, de-duplicate, keep the first 500. */
  function ParseIds(idsParam: Option<string>): (ids: seq<string>)
    ensures |ids| <= MaxIds
    ensures NoDuplicates(ids)
    ensures forall i :: 0 <= i < |ids| ==> ids[i] != "" && IsTrimmed(ids[i]) && ',' !in ids[i]
    ensures idsParam == None || idsParam == Some("") ==> ids == []
  {
    match idsParam
    case None => []
    case Some(s) =>
      if s == "" then []
      else
        var fields := IdFields(s);
        var r := Take(Dedup(fields), MaxIds);
        forall i | 0 <= i < |r| ensures r[i] != "" && IsTrimmed(r[i]) && ',' !in r[i] {
          assert r[i] in Dedup(fields);
          var j :| 0 <= j < |fields| && fields[j] == r[i];
        }
        r
  }

  /** `parseIdsParam` as the page runs it: the fields, the de-duplicating loop, the cap. */
  method ParseIdsParam(idsParam: Option<string>) returns (ids: seq<string>)
    ensures ids == ParseIds(idsParam)
  {
    if idsParam == None || idsParam.value == "" {
      return [];
    }
    var unique := DedupLoop(IdFields(idsParam.value));
    ids := Take(unique, MaxIds);
  }

  /** The loop of `parseIdsParam`, filling a `seen` set and a `unique` array. */
  method DedupLoop(parts: seq<string>) returns (unique: seq<string>)
    ensures unique == Dedup(parts)
  {
    var seen: set<string> := {};
    unique := [];
    for i := 0 to |parts|
      invariant unique == Dedup(parts[..i])
      invariant forall x :: x in seen <==> x in unique
    {
      assert parts[..i + 1][..i] == parts[..i];
      if parts[i] !in seen {
        seen := seen + {parts[i]};
        unique := unique + [parts[i]];
      }
    }
    assert parts[..|parts|] == parts;
  }

  /** The position of the first occurrence of `x` in `s`. */
  function FirstIndex(s: seq<string>, x: string): (k: nat)
    requires x in s
    ensures k < |s| && s[k] == x && x !in s[..k]
  {
    if s[0] == x then 0 else FirstIndex(s[1..], x) + 1
  }

  lemma {:induction false} FirstIndexAppend(s: seq<string>, y: string, x: string)
    requires x in s
    ensures FirstIndex(s + [y], x) == FirstIndex(s, x)
    decreases |s|
  {
    if s[0] != x {
      assert (s + [y])[1..] == s[1..] + [y];
      FirstIndexAppend(s[1..], y, x);
    }
  }

  /** De-duplication keeps the order of first occurrences. */
  lemma {:induction false} DedupFirstOccurrenceOrder(s: seq<string>)
    ensures forall i, j :: 0 <= i < j < |Dedup(s)| ==> FirstIndex(s, Dedup(s)[i]) < FirstIndex(s, Dedup(s)[j])
    decreases |s|
  {
    if s != [] {
      var s' := s[..|s| - 1];
      var y := s[|s| - 1];
      assert s == s' + [y];
      DedupFirstOccurrenceOrder(s');
      var d := Dedup(s');
      forall x | x in d ensures FirstIndex(s, x) == FirstIndex(s', x) {
        FirstIndexAppend(s', y, x);
      }
      if y !in d {
        assert y !in s';
        assert s[..|s'|] == s';
      }
    }
  }

  lemma {:induction false} DedupOfDistinct(s: seq<string>)
    requires NoDuplicates(s)
    ensures Dedup(s) == s
    decreases |s|
  {
    if s != [] {
      var s' := s[..|s| - 1];
      DedupOfDistinct(s');
      assert s[|s| - 1] !in s';
      assert s' + [s[|s| - 1]] == s;
    }
  }

  lemma {:induction false} TrimmedFieldsOfTrimmed(parts: seq<string>)
    requires forall i :: 0 <= i < |parts| ==> parts[i] != "" && IsTrimmed(parts[i])
    ensures TrimmedFields(parts) == parts
    decreases |parts|
  {
    if parts != [] {
      TrimmedFieldsOfTrimmed(parts[1..]);
      assert [parts[0]] + parts[1..] == parts;
    }
  }

  /**
   * The ids come out in the order in which they first occur among the fields of the parameter,
   * and every field is kept unless the 500 cap was reached.
   */
  lemma ParseIdsOrderAndCompleteness(s: string)
    requires s != ""
    ensures var ids := ParseIds(Some(s)); var fields := IdFields(s);
      && (forall i :: 0 <= i < |ids| ==> ids[i] in fields)
      && (forall i, j :: 0 <= i < j < |ids| ==> FirstIndex(fields, ids[i]) < FirstIndex(fields, ids[j]))
      && (forall x :: x in fields ==> x in ids || |ids| == MaxIds)
  {
    var fields := IdFields(s);
    var d := Dedup(fields);
    DedupFirstOccurrenceOrder(fields);
    var ids := ParseIds(Some(s));
    assert ids == Take(d, MaxIds);
    assert forall i :: 0 <= i < |ids| ==> ids[i] == d[i];
  }

  /**
   * The page writes `ids.join(",")` into a hidden field and the send action parses it again:
   * the second parse gives back the same list.
   */
  lemma ParseIdsJoinRoundTrip(idsParam: Option<string>)
    ensures ParseIds(Some(JoinWith(ParseIds(idsParam), ","))) == ParseIds(idsParam)
  {
    var ids := ParseIds(idsParam);
    if ids != [] {
      var joined := JoinWith(ids, ",");
      assert joined != "" by { JoinStartsWithFirst(ids, ","); }
      SplitJoinRoundTrip(ids, ',');
      TrimmedFieldsOfTrimmed(ids);
      DedupOfDistinct(ids);
    }
  }

  lemma {:induction false} JoinStartsWithFirst(parts: seq<string>, sep: string)
    requires |parts| >= 1
    ensures parts[0] <= JoinWith(parts, sep)
  {
  }

  // ---- Placeholder rendering ------------------------------------------------------------

  /**
   * `applyVars`: the chain of `replaceAll` calls for `{{name}}`, `{{companyName}}`, `{{email}}`
   * and `{{phone}}`, in that order, with a null field rendered as "". The value is inserted
   * literally (see `ApplyVarsAsWritten` for the `$`-pattern expansion of the code as written).
   */
  function ApplyVars(template: string, c: Contact): (r: string)
    ensures !HasPlaceholder(template) ==> r == template
  {
    var s1 := ReplaceAll(template, "{{name}}", c.name);
    var s2 := ReplaceAll(s1, "{{companyName}}", c.companyName.GetOr(""));
    var s3 := ReplaceAll(s2, "{{email}}", c.email.GetOr(""));
    ReplaceAll(s3, "{{phone}}", c.phone.GetOr(""))
  }

  predicate HasPlaceholder(t: string) {
    Contains(t, "{{name}}") || Contains(t, "{{companyName}}") || Contains(t, "{{email}}") || Contains(t, "{{phone}}")
  }

  /**
   * Each step of the chain is `split(token).join(value)`: every occurrence of the token in the
   * text produced by the previous step is replaced by the field value, null fields by "".
   */
  lemma ApplyVarsIsSplitJoinChain(template: string, c: Contact)
    ensures ApplyVars(template, c) ==
      var s1 := JoinWith(SplitOn(template, "{{name}}"), c.name);
      var s2 := JoinWith(SplitOn(s1, "{{companyName}}"), c.companyName.GetOr(""));
      var s3 := JoinWith(SplitOn(s2, "{{email}}"), c.email.GetOr(""));
      JoinWith(SplitOn(s3, "{{phone}}"), c.phone.GetOr(""))
  {
    var s1 := ReplaceAll(template, "{{name}}", c.name);
    var s2 := ReplaceAll(s1, "{{companyName}}", c.companyName.GetOr(""));
    var s3 := ReplaceAll(s2, "{{email}}", c.email.GetOr(""));
    ReplaceAllIsSplitJoin(template, "{{name}}", c.name);
    ReplaceAllIsSplitJoin(s1, "{{companyName}}", c.companyName.GetOr(""));
    ReplaceAllIsSplitJoin(s2, "{{email}}", c.email.GetOr(""));
    ReplaceAllIsSplitJoin(s3, "{{phone}}", c.phone.GetOr(""));
  }

  /** A `{{name}}` placeholder renders as the contact's name, character for character. */
  lemma ApplyVarsNameVerbatim(c: Contact)
    requires !Contains(c.name, "{{companyName}}") && !Contains(c.name, "{{email}}") && !Contains(c.name, "{{phone}}")
    ensures ApplyVars("{{name}}", c) == c.name
  {
    var t := "{{name}}";
    assert t[..|t|] == t && t[|t|..] == [];
    assert ReplaceAll(t, t, c.name) == c.name + ReplaceAll([], t, c.name);
    assert ReplaceAll(t, t, c.name) == c.name;
  }

  // ---- replaceAll as written: ECMAScript replacement patterns ----------------------------

  /**
   * The GetSubstitution step of ECMAScript's `String.prototype.replaceAll` for a string pattern:
   * `$$` gives `$`, `$&` the matched text, `` $` `` the text before the match, `$'` the text after
   * it; any other `$` is literal.
   */
  function Substitution(r: string, matched: string, before: string, after: string): (out: string)
    ensures '$' !in r ==> out == r
    decreases |r|
  {
    if |r| >= 2 && r[0] == '$' && r[1] == '$' then "$" + Substitution(r[2..], matched, before, after)
    else if |r| >= 2 && r[0] == '$' && r[1] == '&' then matched + Substitution(r[2..], matched, before, after)
    else if |r| >= 2 && r[0] == '$' && r[1] == '`' then before + Substitution(r[2..], matched, before, after)
    else if |r| >= 2 && r[0] == '$' && r[1] == '\'' then after + Substitution(r[2..], matched, before, after)
    else if r == [] then []
    else
      assert r == [r[0]] + r[1..];
      [r[0]] + Substitution(r[1..], matched, before, after)
  }

  /**
   * `s.replaceAll(p, r)` with the replacement patterns of `r` expanded, where `before` is the part
   * of `s` already scanned and `rest` the part still to scan.
   */
  function ReplaceAllJsFrom(before: string, rest: string, p: string, r: string): (out: string)
    requires |p| > 0
    ensures '$' !in r ==> out == ReplaceAll(rest, p, r)
    decreases |rest|
  {
    if |rest| < |p| then rest
    else if rest[..|p|] == p then Substitution(r, p, before, rest[|p|..]) + ReplaceAllJsFrom(before + p, rest[|p|..], p, r)
    else [rest[0]] + ReplaceAllJsFrom(before + [rest[0]], rest[1..], p, r)
  }

  /** `s.replaceAll(p, r)` as ECMAScript runs it; without `$` in `r` it is the literal substitution. */
  function ReplaceAllJs(s: string, p: string, r: string): (out: string)
    requires |p| > 0
    ensures '$' !in r ==> out == ReplaceAll(s, p, r)
  {
    ReplaceAllJsFrom([], s, p, r)
  }

  /** No field value `applyVars` inserts contains `$`. */
  predicate NoDollar(c: Contact) {
    '$' !in c.name && '$' !in c.companyName.GetOr("") && '$' !in c.email.GetOr("") && '$' !in c.phone.GetOr("")
  }

  /**
   * `applyVars` exactly as the code is written, `$`-patterns of the field values included. When no
   * field value contains `$`, it agrees with the literal renderer.
   */
  function ApplyVarsAsWritten(template: string, c: Contact): (r: string)
    ensures NoDollar(c) ==> r == ApplyVars(template, c)
  {
    var s1 := ReplaceAllJs(template, "{{name}}", c.name);
    var s2 := ReplaceAllJs(s1, "{{companyName}}", c.companyName.GetOr(""));
    var s3 := ReplaceAllJs(s2, "{{email}}", c.email.GetOr(""));
    ReplaceAllJs(s3, "{{phone}}", c.phone.GetOr(""))
  }

  /**
   * A contact named `$&` renders `{{name}}` as `{{name}}` again in the code as written, where the
   * literal renderer gives `$&`.
   */
  lemma DollarPatternCounterexample()
    ensures var c := Contact("c1", "org", "$&", None, None, None, None, 0, "u", "u");
      && ApplyVarsAsWritten("{{name}}", c) == "{{name}}"
      && ApplyVars("{{name}}", c) == "$&"
  {
    var c := Contact("c1", "org", "$&", None, None, None, None, 0, "u", "u");
    var t := "{{name}}";
    assert t[..|t|] == t && t[|t|..] == [];
    assert Substitution("$&", t, "", "") == t + Substitution("", t, "", "");
    assert ReplaceAllJsFrom([], t, t, "$&") == t + ReplaceAllJsFrom(t, [], t, "$&");
    assert ApplyVarsAsWritten(t, c) == t;
    ApplyVarsNameVerbatim(c);
  }

  // ---- Send errors -------------------------------------------------------------------------

  /** What `sendEmail` can throw: an `Error`, a string, or another value with its JSON text (absent when `JSON.stringify` throws). */
  datatype Thrown = ErrorObject(message: string) | ThrownString(s: string) | OtherValue(json: Option<string>)

  /** `toErrorMessage`: the message of an `Error`, a thrown string as is, else its JSON or "send failed". */
  function ToErrorMessage(e: Thrown): (m: string)
    ensures e.ErrorObject? ==> m == e.message
    ensures e.ThrownString? ==> m == e.s
    ensures e.OtherValue? && e.json.Some? ==> m == e.json.value
    ensures e.OtherValue? && e.json.None? ==> m == "send failed"
  {
    match e
    case ErrorObject(m) => m
    case ThrownString(s) => s
    case OtherValue(j) => j.GetOr("send failed")
  }
}

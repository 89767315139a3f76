/**
 * The e-mail normalisation shared by the contact, invitation and magic-link routes:
 * `(v ?? "").trim().toLowerCase()`, and the plausibility test `email && email.includes("@")`.
 */
module Emails {
  import opened Options
  import opened Strings

  /** `(v ?? "").toString().trim().toLowerCase()` for a string or absent `v`. */
  function NormalAddress(v: Option<string>): (e: string)
    ensures IsTrimmed(e)
    ensures forall i :: 0 <= i < |e| ==> !('A' <= e[i] <= 'Z')
    ensures |e| == |Trim(v.GetOr(""))|
    ensures v.None? ==> e == []
  {
    LowerKeepsTrimmed(Trim(v.GetOr("")));
    ToLower(Trim(v.GetOr("")))
  }

  /** Normalising an address that is already normal leaves it as it is. */
  lemma NormalAddressIdempotent(v: Option<string>)
    ensures NormalAddress(Some(NormalAddress(v))) == NormalAddress(v)
  {
    LowerKeepsTrimmed(Trim(v.GetOr("")));
  }

  /** The routes' test `!email || !email.includes("@")`, negated: non-empty and holding an `@`. */
  predicate Plausible(e: string) {
    e != [] && '@' in e
  }

  /** Whether an address is plausible does not depend on its letter case. */
  lemma PlausibleIgnoresCase(v: Option<string>)
    ensures Plausible(NormalAddress(v)) <==> '@' in Trim(v.GetOr(""))
  {
    LowerKeepsAt(Trim(v.GetOr("")));
  }
}

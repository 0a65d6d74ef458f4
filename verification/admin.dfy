/**
 * lib/admin.ts: whether a signed-in user is an administrator. The allow-list
 * is the comma-separated ADMIN_EMAILS environment value, passed in here.
 */
module Admin {
  import opened Wrappers
  import opened Text

  /** The allow-list entries as compared: each comma-separated piece, trimmed and lower-cased. */
  function Entries(allowed: string): (r: seq<string>)
    ensures |r| == |Split(allowed, ',')|
  {
    var parts := Split(allowed, ',');
    seq(|parts|, i requires 0 <= i < |parts| => ToLower(Trim(parts[i])))
  }

  /**
   * `isAdmin`: a user with a non-empty email, a non-empty allow-list, and
   * some entry equal to the lower-cased email. The email itself is not trimmed.
   */
  function IsAdmin(email: Option<string>, allowed: Option<string>): (r: bool)
    ensures email.None? || email.value == "" ==> !r
    ensures allowed.None? || allowed.value == "" ==> !r
    ensures r <==> email.Some? && email.value != "" && allowed.Some? && allowed.value != ""
                   && exists i | 0 <= i < |Split(allowed.value, ',')| ::
                        ToLower(Trim(Split(allowed.value, ',')[i])) == ToLower(email.value)
  {
    if email.None? || email.value == "" then false
    else if allowed.None? || allowed.value == "" then false
    else
      var entries := Entries(allowed.value);
      var found := ToLower(email.value) in entries;
      assert forall i | 0 <= i < |entries| :: entries[i] == ToLower(Trim(Split(allowed.value, ',')[i]));
      assert found ==> exists i | 0 <= i < |entries| :: entries[i] == ToLower(email.value);
      found
  }

  /** Changing the case of the user's email never changes the answer. */
  lemma EmailCaseIgnored(email: string, allowed: Option<string>)
    ensures IsAdmin(Some(ToUpper(email)), allowed) == IsAdmin(Some(email), allowed)
    ensures IsAdmin(Some(ToLower(email)), allowed) == IsAdmin(Some(email), allowed)
  {
    LowerOfCase(email);
  }

  /** Upper- or lower-casing a piece and then trimming and lower-casing it gives the same entry. */
  lemma EntryCaseIgnored(p: string)
    ensures ToLower(Trim(ToUpper(p))) == ToLower(Trim(p))
    ensures ToLower(Trim(ToLower(p))) == ToLower(Trim(p))
  {
    forall x ensures IsWhitespace(UpperChar(x)) <==> IsWhitespace(x) { CaseKeepsWhitespace(x); }
    forall x ensures IsWhitespace(LowerChar(x)) <==> IsWhitespace(x) { CaseKeepsWhitespace(x); }
    CaseAsMap(p);
    CaseAsMap(Trim(p));
    TrimMap(p, UpperChar);
    TrimMap(p, LowerChar);
    LowerOfCase(Trim(p));
  }

  /** Changing the case of the allow-list never changes the answer. */
  lemma ListCaseIgnored(email: Option<string>, allowed: string)
    ensures IsAdmin(email, Some(ToUpper(allowed))) == IsAdmin(email, Some(allowed))
    ensures IsAdmin(email, Some(ToLower(allowed))) == IsAdmin(email, Some(allowed))
  {
    CaseAsMap(allowed);
    SplitMap(allowed, ',', UpperChar);
    SplitMap(allowed, ',', LowerChar);
    var parts := Split(allowed, ',');
    forall i | 0 <= i < |parts|
      ensures Entries(ToUpper(allowed))[i] == Entries(allowed)[i]
      ensures Entries(ToLower(allowed))[i] == Entries(allowed)[i]
    {
      CaseAsMap(parts[i]);
      EntryCaseIgnored(parts[i]);
    }
    assert Entries(ToUpper(allowed)) == Entries(allowed);
    assert Entries(ToLower(allowed)) == Entries(allowed);
  }

  /** Whitespace around an allow-list entry is ignored: the padded first entry still grants access. */
  lemma PaddedEntryGrants(pad1: string, email: string, pad2: string, rest: string)
    requires AllWhitespace(pad1) && AllWhitespace(pad2)
    requires email != [] && !IsWhitespace(email[0]) && !IsWhitespace(email[|email| - 1])
    requires ',' !in pad1 + email + pad2
    ensures IsAdmin(Some(email), Some(pad1 + email + pad2 + "," + rest))
  {
    var allowed := pad1 + email + pad2 + "," + rest;
    assert allowed == (pad1 + email + pad2) + [','] + rest;
    SplitAtFirst(pad1 + email + pad2, ',', rest);
    TrimPadded(pad1, email, pad2);
    assert Entries(allowed)[0] == ToLower(email);
  }

  /** Lower-casing keeps whitespace at the ends of a string where it was. */
  lemma LowerKeepsEnds(s: string)
    requires s != []
    ensures IsWhitespace(ToLower(s)[0]) <==> IsWhitespace(s[0])
    ensures IsWhitespace(ToLower(s)[|s| - 1]) <==> IsWhitespace(s[|s| - 1])
  {
    CaseKeepsWhitespace(s[0]);
    CaseKeepsWhitespace(s[|s| - 1]);
  }

  /** Every compared entry is empty or has no whitespace at either end. */
  lemma EntriesTrimmed(allowed: string, i: nat)
    requires i < |Entries(allowed)|
    ensures var e := Entries(allowed)[i];
      e == [] || (!IsWhitespace(e[0]) && !IsWhitespace(e[|e| - 1]))
  {
    var t := Trim(Split(allowed, ',')[i]);
    assert Entries(allowed)[i] == ToLower(t);
    if t != [] {
      LowerKeepsEnds(t);
    }
  }

  /** The user's email is not trimmed: one that starts or ends with whitespace never matches. */
  lemma UntrimmedEmailNeverAdmin(email: string, allowed: Option<string>)
    requires email != [] && (IsWhitespace(email[0]) || IsWhitespace(email[|email| - 1]))
    ensures !IsAdmin(Some(email), allowed)
  {
    if allowed.Some? && allowed.value != "" {
      LowerKeepsEnds(email);
      var entries := Entries(allowed.value);
      forall i | 0 <= i < |entries| ensures entries[i] != ToLower(email) {
        EntriesTrimmed(allowed.value, i);
      }
    }
  }

  /** Entries that are empty or blank (as in ",,") never grant access. */
  lemma BlankEntriesNeverGrant(email: Option<string>, allowed: string)
    requires forall i | 0 <= i < |Split(allowed, ',')| :: AllWhitespace(Split(allowed, ',')[i])
    ensures !IsAdmin(email, Some(allowed))
  {
  }
}

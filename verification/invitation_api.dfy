/**
 * The client-side helpers of lib/invitationApi.ts that do not depend on the
 * network: the invitation-id test, the list URL, and how each helper turns an
 * HTTP status (and, for writes, the error body) into a result or a thrown error.
 * The fetch itself is an input: the status code and the parsed body.
 */
module InvitationApi {
  import opened Wrappers
  import opened Text
  import opened Js
  import Radix

  // ------------------------------------------------------- invitation ids

  /** A character `[0-9a-f]` matches under the regular expression's `i` flag. */
  predicate IsHexDigit(c: char) {
    ('0' <= c <= '9') || ('a' <= c <= 'f') || ('A' <= c <= 'F')
  }

  predicate AllHex(s: string) {
    forall i | 0 <= i < |s| :: IsHexDigit(s[i])
  }

  /** The group lengths of the 8-4-4-4-12 form. */
  function GroupLengths(): seq<nat> {
    [8, 4, 4, 4, 12]
  }

  /**
   * The anchored pattern `hex{g0}-hex{g1}-...-hex{gk}`: the whole string is
   * the groups of hex digits of the given lengths, separated by single hyphens.
   */
  predicate MatchesGroups(s: string, groups: seq<nat>)
    decreases |groups|
  {
    if |groups| == 0 then false
    else if |groups| == 1 then |s| == groups[0] && AllHex(s)
    else
      |s| > groups[0] && AllHex(s[..groups[0]]) && s[groups[0]] == '-'
      && MatchesGroups(s[groups[0] + 1..], groups[1..])
  }

  /** `isInvitationId`: the canonical UUID text form, any letter case, no version check. */
  predicate IsInvitationId(id: string) {
    MatchesGroups(id, GroupLengths())
  }

  /** Where the hyphens of the 8-4-4-4-12 form sit. */
  predicate IsHyphenIndex(i: int) {
    i == 8 || i == 13 || i == 18 || i == 23
  }

  /** The positional reading: 36 characters, hyphens at 8, 13, 18 and 23, hex digits elsewhere. */
  predicate UuidShape(id: string) {
    |id| == 36 && forall i | 0 <= i < 36 :: if IsHyphenIndex(i) then id[i] == '-' else IsHexDigit(id[i])
  }

  /** One group and the rest: the pattern peels a leading group of hex digits and a hyphen. */
  lemma GroupStep(s: string, g: nat, rest: seq<nat>)
    requires |rest| >= 1
    ensures MatchesGroups(s, [g] + rest) <==>
              |s| > g && AllHex(s[..g]) && s[g] == '-' && MatchesGroups(s[g + 1..], rest)
  {
    assert ([g] + rest)[0] == g;
    assert ([g] + rest)[1..] == rest;
  }

  /** A single group: exactly `g` hex digits. */
  lemma LastGroup(s: string, g: nat)
    ensures MatchesGroups(s, [g]) <==> |s| == g && AllHex(s)
  {
  }

  /** The pattern and the positional reading agree on every string. */
  lemma {:induction false} InvitationIdShape(id: string)
    ensures IsInvitationId(id) <==> UuidShape(id)
  {
    var s1 := if |id| >= 9 then id[9..] else [];
    assert GroupLengths() == [8] + [4, 4, 4, 12];
    GroupStep(id, 8, [4, 4, 4, 12]);
    if |id| > 8 {
      assert [4, 4, 4, 12] == [4] + [4, 4, 12];
      GroupStep(s1, 4, [4, 4, 12]);
      if |s1| > 4 {
        assert [4, 4, 12] == [4] + [4, 12];
        GroupStep(s1[5..], 4, [4, 12]);
        if |s1[5..]| > 4 {
          assert [4, 12] == [4] + [12];
          GroupStep(s1[5..][5..], 4, [12]);
          if |s1[5..][5..]| > 4 {
            LastGroup(s1[5..][5..][5..], 12);
          }
        }
      }
    }
    if IsInvitationId(id) {
      assert |id| == 36;
      forall i | 0 <= i < 36 ensures if IsHyphenIndex(i) then id[i] == '-' else IsHexDigit(id[i]) {
        if i < 8 { assert id[i] == id[..8][i]; }
        else if 8 < i < 13 { assert id[i] == s1[..4][i - 9]; }
        else if 13 < i < 18 { assert id[i] == s1[5..][..4][i - 14]; }
        else if 18 < i < 23 { assert id[i] == s1[5..][5..][..4][i - 19]; }
        else if 23 < i { assert id[i] == s1[5..][5..][5..][i - 24]; }
      }
    }
    if UuidShape(id) {
      assert AllHex(id[..8]) by {
        forall i | 0 <= i < 8 ensures IsHexDigit(id[..8][i]) { assert id[..8][i] == id[i]; }
      }
      assert AllHex(s1[..4]) by {
        forall i | 0 <= i < 4 ensures IsHexDigit(s1[..4][i]) { assert s1[..4][i] == id[i + 9]; }
      }
      assert AllHex(s1[5..][..4]) by {
        forall i | 0 <= i < 4 ensures IsHexDigit(s1[5..][..4][i]) { assert s1[5..][..4][i] == id[i + 14]; }
      }
      assert AllHex(s1[5..][5..][..4]) by {
        forall i | 0 <= i < 4 ensures IsHexDigit(s1[5..][5..][..4][i]) { assert s1[5..][5..][..4][i] == id[i + 19]; }
      }
      assert AllHex(s1[5..][5..][5..]) by {
        forall i | 0 <= i < 12 ensures IsHexDigit(s1[5..][5..][5..][i]) { assert s1[5..][5..][5..][i] == id[i + 24]; }
      }
    }
  }

  /** Changing the case of letters never changes whether a string is an invitation id. */
  lemma InvitationIdCaseInsensitive(id: string)
    ensures IsInvitationId(ToLower(id)) <==> IsInvitationId(id)
    ensures IsInvitationId(ToUpper(id)) <==> IsInvitationId(id)
  {
    InvitationIdShape(id);
    InvitationIdShape(ToLower(id));
    InvitationIdShape(ToUpper(id));
    forall i | 0 <= i < |id|
      ensures (IsHexDigit(ToLower(id)[i]) <==> IsHexDigit(id[i])) && (ToLower(id)[i] == '-' <==> id[i] == '-')
      ensures (IsHexDigit(ToUpper(id)[i]) <==> IsHexDigit(id[i])) && (ToUpper(id)[i] == '-' <==> id[i] == '-')
    {
    }
  }

  // -------------------------------------------------- statuses and errors

  /** The list filter `fetchInvitations` may be given. */
  datatype ListStatus = Draft | Published

  function ListStatusName(s: ListStatus): string {
    if s == Draft then "draft" else "published"
  }

  /** `fetchInvitations`' URL: `?status=` is appended only when a status is given. */
  function ListUrl(apiBase: string, status: Option<ListStatus>): (url: string)
    ensures |url| >= |apiBase| + 12 && url[..|apiBase| + 12] == apiBase + "/invitations"
    ensures status.None? <==> |url| == |apiBase| + 12
    ensures status.Some? ==> url[|apiBase| + 12..] == "?status=" + ListStatusName(status.value)
  {
    if status.Some? then apiBase + "/invitations?status=" + ListStatusName(status.value)
    else apiBase + "/invitations"
  }

  /** `Response.ok`: a 2xx status. */
  predicate IsOk(status: nat) {
    200 <= status <= 299
  }

  /** What a failed helper throws: a message, or the `error` member of the response body as it is. */
  datatype Thrown =
    | Message(text: string)
    | BodyError(value: Json)
    | NullBodyAccess

  datatype Outcome<T> = Returned(value: T) | Threw(error: Thrown)

  function StatusText(status: nat): string {
    Radix.ToRadix(status, 10)
  }

  /** `fetchInvitations`: 401 is "Unauthorized", any other non-2xx a listing failure. */
  function ListOutcome(status: nat, body: Json): (r: Outcome<Json>)
    ensures r.Returned? <==> IsOk(status)
    ensures r.Returned? ==> r.value == body
    ensures status == 401 ==> r == Threw(Message("Unauthorized"))
    ensures !IsOk(status) && status != 401 ==> r == Threw(Message("Failed to list invitations: " + StatusText(status)))
  {
    if status == 401 then Threw(Message("Unauthorized"))
    else if !IsOk(status) then Threw(Message("Failed to list invitations: " + StatusText(status)))
    else Returned(body)
  }

  /** `fetchInvitation`: 404 and 403 both read as "no such invitation"; other failures throw. */
  function FetchOutcome(status: nat, body: Json): (r: Outcome<Option<Json>>)
    ensures r == Returned(None) <==> status == 404 || status == 403
    ensures r.Returned? && r.value.Some? <==> IsOk(status)
    ensures r.Returned? && r.value.Some? ==> r.value.value == body
    ensures r.Threw? ==> r.error == Message("Failed to load invitation: " + StatusText(status))
  {
    if status == 404 || status == 403 then Returned(None)
    else if !IsOk(status) then Threw(Message("Failed to load invitation: " + StatusText(status)))
    else Returned(Some(body))
  }

  /** `fetchInvitationBySlug`: only 404 reads as "no such invitation"; a 403 throws. */
  function FetchBySlugOutcome(status: nat, body: Json): (r: Outcome<Option<Json>>)
    ensures r == Returned(None) <==> status == 404
    ensures r.Returned? && r.value.Some? <==> IsOk(status)
    ensures r.Returned? && r.value.Some? ==> r.value.value == body
    ensures r.Threw? ==> r.error == Message("Failed to load invitation: " + StatusText(status))
  {
    if status == 404 then Returned(None)
    else if !IsOk(status) then Threw(Message("Failed to load invitation: " + StatusText(status)))
    else Returned(Some(body))
  }

  /**
   * The error a failed write throws: the body's `error` member when the body
   * parsed to an object holding a non-null one, else `fallback`. A body that
   * does not parse counts as `{}`; a body that is JSON `null` makes the member
   * access itself throw.
   */
  function WriteError(body: Option<Json>, fallback: string): (e: Thrown)
    ensures body == Some(JNull) <==> e == NullBodyAccess
    ensures e.BodyError? <==> body.Some? && body.value.JObj? && "error" in body.value.fields
                               && body.value.fields["error"] != JNull
    ensures e.BodyError? ==> e.value == body.value.fields["error"]
    ensures e.Message? ==> e.text == fallback
  {
    if body.None? then Message(fallback)
    else match body.value
      case JNull => NullBodyAccess
      case JObj(fields) =>
        if "error" in fields && fields["error"] != JNull then BodyError(fields["error"]) else Message(fallback)
      case _ => Message(fallback)
  }

  /** The two writes of the client: `saveInvitation` and `publishInvitation`. */
  datatype WriteAction = Save | Publish

  /** The start of a write's fallback error message. */
  function FailurePrefix(a: WriteAction): string {
    match a
    case Save => "Save failed: "
    case Publish => "Publish failed: "
  }

  /**
   * `saveInvitation` and `publishInvitation`: 401 is "Unauthorized"; other
   * failures use the body's error or "<action> failed: <status>".
   */
  function WriteOutcome(action: WriteAction, status: nat, errorBody: Option<Json>, body: Json): (r: Outcome<Json>)
    ensures r.Returned? <==> IsOk(status)
    ensures r.Returned? ==> r.value == body
    ensures status == 401 ==> r == Threw(Message("Unauthorized"))
    ensures !IsOk(status) && status != 401 ==> r == Threw(WriteError(errorBody, FailurePrefix(action) + StatusText(status)))
  {
    if status == 401 then Threw(Message("Unauthorized"))
    else if !IsOk(status) then Threw(WriteError(errorBody, FailurePrefix(action) + StatusText(status)))
    else Returned(body)
  }

  /** A failed write whose body gave no usable error reports its status in decimal. */
  lemma SaveFallbackNamesStatus(status: nat, errorBody: Option<Json>, body: Json)
    requires !IsOk(status) && status != 401
    requires errorBody.None? || (errorBody.value.JObj? && "error" !in errorBody.value.fields)
    ensures WriteOutcome(Save, status, errorBody, body).Threw?
    ensures WriteOutcome(Save, status, errorBody, body).error.Message?
    ensures Radix.FromRadix(WriteOutcome(Save, status, errorBody, body).error.text[13..], 10) == status
  {
    Radix.FromToRadix(status, 10);
    var text := "Save failed: " + StatusText(status);
    assert text[13..] == StatusText(status);
  }
}

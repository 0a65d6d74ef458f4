/**
 * app/api/v1/invitations/route.ts: listing the caller's invitations (GET) and
 * creating or updating a draft (POST) over the invitations table, held here
 * as a map from invitation id to row. The signed-in user, the parsed request
 * body, the id and timestamp the database would assign are parameters.
 */
module InvitationsRoute {
  import opened Wrappers
  import opened Js
  import InvitationContent

  datatype Status = Draft | Published

  /** What the content column holds after a write: the validated content, or `{}` when validation failed. */
  datatype StoredContent = Validated(content: InvitationContent.Content) | EmptyObject

  datatype Row = Row(
    userId: string,
    templateId: string,
    content: StoredContent,
    status: Status,
    slug: Option<string>,
    createdAt: int,
    updatedAt: int)

  type Table = map<string, Row>

  /** A listed row together with its id. */
  datatype Entry = Entry(id: string, row: Row)

  datatype Body = ErrorBody(message: string) | RowBody(id: string, row: Row) | ListBody(entries: seq<Entry>)

  datatype Response = Response(status: nat, body: Body)

  // --------------------------------------------------------------- GET

  /** The `status` query parameter filters only when it is exactly "draft" or "published". */
  function StatusFilter(param: Option<string>): (f: Option<Status>)
    ensures f == Some(Draft) <==> param == Some("draft")
    ensures f == Some(Published) <==> param == Some("published")
  {
    if param == Some("draft") then Some(Draft)
    else if param == Some("published") then Some(Published)
    else None
  }

  /** Whether a row belongs in the caller's listing. */
  predicate Shown(row: Row, userId: string, filter: Option<Status>) {
    row.userId == userId && (filter.None? || row.status == filter.value)
  }

  /** Most recently updated first. */
  predicate NewestFirst(s: seq<Entry>) {
    forall i, j | 0 <= i < j < |s| :: s[i].row.updatedAt >= s[j].row.updatedAt
  }

  predicate DistinctIds(s: seq<Entry>) {
    forall i, j | 0 <= i < j < |s| :: s[i].id != s[j].id
  }

  /** How many leading entries were updated strictly later than `e`. */
  function InsertionPoint(s: seq<Entry>, e: Entry): (i: nat)
    ensures i <= |s|
    ensures forall j | 0 <= j < i :: s[j].row.updatedAt > e.row.updatedAt
    ensures i < |s| ==> s[i].row.updatedAt <= e.row.updatedAt
    decreases |s|
  {
    if |s| == 0 || s[0].row.updatedAt <= e.row.updatedAt then 0 else 1 + InsertionPoint(s[1..], e)
  }

  /** Places `e` before the first entry updated no later than it. */
  function InsertNewestFirst(s: seq<Entry>, e: Entry): (r: seq<Entry>)
    ensures |r| == |s| + 1
    ensures forall x :: x in r <==> x in s || x == e
  {
    var i := InsertionPoint(s, e);
    s[..i] + [e] + s[i..]
  }

  /** Insertion keeps a list newest first. */
  lemma InsertKeepsOrder(s: seq<Entry>, e: Entry)
    requires NewestFirst(s)
    ensures NewestFirst(InsertNewestFirst(s, e))
  {
    var i := InsertionPoint(s, e);
    var r := InsertNewestFirst(s, e);
    assert r == s[..i] + [e] + s[i..];
    forall a, b | 0 <= a < b < |r| ensures r[a].row.updatedAt >= r[b].row.updatedAt {
      if b < i {
        assert r[a] == s[a] && r[b] == s[b];
      } else if b == i {
        assert r[a] == s[a] && r[b] == e;
      } else if a < i {
        assert r[a] == s[a] && r[b] == s[b - 1];
      } else if a == i {
        assert r[a] == e && r[b] == s[b - 1];
        assert s[b - 1].row.updatedAt <= s[i].row.updatedAt;
      } else {
        assert r[a] == s[a - 1] && r[b] == s[b - 1];
      }
    }
  }

  /** Inserting an entry with a new id keeps ids distinct. */
  lemma InsertKeepsDistinct(s: seq<Entry>, e: Entry)
    requires DistinctIds(s)
    requires forall x | x in s :: x.id != e.id
    ensures DistinctIds(InsertNewestFirst(s, e))
  {
    var i := InsertionPoint(s, e);
    var r := InsertNewestFirst(s, e);
    assert r == s[..i] + [e] + s[i..];
    forall a, b | 0 <= a < b < |r| ensures r[a].id != r[b].id {
      if b < i {
        assert r[a] == s[a] && r[b] == s[b];
      } else if b == i {
        assert r[a] == s[a] && r[b] == e;
        assert s[a] in s;
      } else if a < i {
        assert r[a] == s[a] && r[b] == s[b - 1];
      } else if a == i {
        assert r[a] == e && r[b] == s[b - 1];
        assert s[b - 1] in s;
      } else {
        assert r[a] == s[a - 1] && r[b] == s[b - 1];
      }
    }
  }

  /**
   * GET: 401 without a user; otherwise every row the caller owns that passes
   * the status filter, once each, most recently updated first.
   */
  method List(table: Table, user: Option<string>, statusParam: Option<string>) returns (resp: Response)
    ensures user.None? ==> resp == Response(401, ErrorBody("Unauthorized"))
    ensures user.Some? ==> resp.status == 200 && resp.body.ListBody?
    ensures user.Some? ==> NewestFirst(resp.body.entries) && DistinctIds(resp.body.entries)
    ensures user.Some? ==> forall x | x in resp.body.entries ::
              x.id in table && x.row == table[x.id] && Shown(x.row, user.value, StatusFilter(statusParam))
    ensures user.Some? ==> forall k | k in table && Shown(table[k], user.value, StatusFilter(statusParam)) ::
              Entry(k, table[k]) in resp.body.entries
  {
    if user.None? {
      return Response(401, ErrorBody("Unauthorized"));
    }
    var filter := StatusFilter(statusParam);
    var remaining := table.Keys;
    var entries: seq<Entry> := [];
    while remaining != {}
      invariant remaining <= table.Keys
      invariant NewestFirst(entries) && DistinctIds(entries)
      invariant forall x | x in entries ::
                  x.id in table && x.id !in remaining && x.row == table[x.id] && Shown(x.row, user.value, filter)
      invariant forall k | k in table && k !in remaining && Shown(table[k], user.value, filter) ::
                  Entry(k, table[k]) in entries
      decreases remaining
    {
      var k :| k in remaining;
      if Shown(table[k], user.value, filter) {
        InsertKeepsOrder(entries, Entry(k, table[k]));
        InsertKeepsDistinct(entries, Entry(k, table[k]));
        entries := InsertNewestFirst(entries, Entry(k, table[k]));
      }
      remaining := remaining - {k};
    }
    return Response(200, ListBody(entries));
  }

  // -------------------------------------------------------------- POST

  /** `body?.content ?? body`: the `content` member unless it is absent or null, else the whole body. */
  function ContentInput(body: Json): (j: Json)
    ensures body.JObj? && "content" in body.fields && body.fields["content"] != JNull ==> j == body.fields["content"]
    ensures !(body.JObj? && "content" in body.fields && body.fields["content"] != JNull) ==> j == body
  {
    if body.JObj? && "content" in body.fields && body.fields["content"] != JNull then body.fields["content"] else body
  }

  /** A body member that is a non-empty string. */
  function NonEmptyString(body: Json, key: string): (r: Option<string>)
    ensures r.Some? <==> body.JObj? && key in body.fields && body.fields[key].JStr? && body.fields[key].s != ""
    ensures r.Some? ==> body.fields[key] == JStr(r.value)
  {
    if body.JObj? && key in body.fields && body.fields[key].JStr? && body.fields[key].s != "" then
      Some(body.fields[key].s)
    else None
  }

  /** The template id: a non-empty string `template_id`, else "elegant-rose". */
  function TemplateId(body: Json): (t: string)
    ensures t != ""
    ensures NonEmptyString(body, "template_id").Some? ==> t == NonEmptyString(body, "template_id").value
    ensures NonEmptyString(body, "template_id").None? ==> t == "elegant-rose"
  {
    NonEmptyString(body, "template_id").GetOr("elegant-rose")
  }

  /** What is written to the content column: invalid content is not rejected, it is stored as `{}`. */
  function ContentToStore(body: Json, policy: InvitationContent.DefaultPolicy): (c: StoredContent)
    ensures c.Validated? <==> InvitationContent.Validate(ContentInput(body), policy).Success?
    ensures c.Validated? ==> c.content == InvitationContent.Validate(ContentInput(body), policy).value
  {
    var parsed := InvitationContent.Validate(ContentInput(body), policy);
    if parsed.Success? then Validated(parsed.value) else EmptyObject
  }

  datatype Posted = Posted(response: Response, table: Table)

  /** The update branch of POST: the row must exist (404), be the caller's (403) and be a draft (400). */
  function Update(table: Table, userId: string, id: string, templateId: string, content: StoredContent): (r: Posted)
    ensures r.response.status != 200 ==> r.table == table
    ensures r.response.status == 200 <==> id in table && table[id].userId == userId && table[id].status == Draft
    ensures r.response.status == 200 ==>
              r.table == table[id := table[id].(templateId := templateId, content := content)]
  {
    if id !in table then Posted(Response(404, ErrorBody("Invitation not found")), table)
    else if table[id].userId != userId then Posted(Response(403, ErrorBody("Forbidden")), table)
    else if table[id].status == Published then
      Posted(Response(400, ErrorBody("Cannot edit published invitation")), table)
    else
      assert table[id].status == Draft;
      var updated := table[id].(templateId := templateId, content := content);
      Posted(Response(200, RowBody(id, updated)), table[id := updated])
  }

  /** The insert branch of POST: a draft owned by the caller, with no slug, stamped `now`. */
  function Create(table: Table, userId: string, newId: string, templateId: string, content: StoredContent,
                  now: int): (r: Posted)
    ensures r.response.status != 200 ==> r.table == table
    ensures r.response.status == 200 <==> newId !in table
    ensures r.response.status == 200 ==>
              r.table == table[newId := Row(userId, templateId, content, Draft, None, now, now)]
  {
    if newId in table then Posted(Response(500, ErrorBody("duplicate key")), table)
    else
      var created := Row(userId, templateId, content, Draft, None, now, now);
      Posted(Response(200, RowBody(newId, created)), table[newId := created])
  }

  /**
   * POST. Checks, in order: a signed-in user (401), a parseable body (400),
   * then, when a non-empty string `id` is given, that the row exists (404),
   * is the caller's (403) and is not published (400), and updates its
   * template and content; without an id it inserts a draft owned by the
   * caller under `newId`, which fails (500) if that id is taken.
   */
  function Post(table: Table, user: Option<string>, body: Option<Json>,
                policy: InvitationContent.DefaultPolicy, newId: string, now: int): (r: Posted)
    ensures user.None? ==> r == Posted(Response(401, ErrorBody("Unauthorized")), table)
    ensures user.Some? && body.None? ==> r == Posted(Response(400, ErrorBody("Invalid JSON")), table)
    ensures r.response.status != 200 ==> r.table == table
    ensures r.response.status == 200 <==>
              user.Some? && body.Some? &&
              (var id := NonEmptyString(body.value, "id");
               if id.Some? then id.value in table && table[id.value].userId == user.value
                                && table[id.value].status == Draft
               else newId !in table)
  {
    if user.None? then Posted(Response(401, ErrorBody("Unauthorized")), table)
    else if body.None? then Posted(Response(400, ErrorBody("Invalid JSON")), table)
    else
      var content := ContentToStore(body.value, policy);
      var templateId := TemplateId(body.value);
      var id := NonEmptyString(body.value, "id");
      if id.Some? then Update(table, user.value, id.value, templateId, content)
      else Create(table, user.value, newId, templateId, content, now)
  }

  /** An update with an id reports the first failing check in the order 404, 403, 400. */
  lemma UpdateCheckOrder(table: Table, userId: string, body: Json, policy: InvitationContent.DefaultPolicy,
                         newId: string, now: int, id: string)
    requires NonEmptyString(body, "id") == Some(id)
    ensures var r := Post(table, Some(userId), Some(body), policy, newId, now).response;
      && (id !in table ==> r == Response(404, ErrorBody("Invitation not found")))
      && (id in table && table[id].userId != userId ==> r == Response(403, ErrorBody("Forbidden")))
      && (id in table && table[id].userId == userId && table[id].status == Published
          ==> r == Response(400, ErrorBody("Cannot edit published invitation")))
  {
  }

  /** A successful update rewrites only that row's template and content; owner, status, slug and timestamps stay. */
  lemma UpdateChangesOnlyTemplateAndContent(table: Table, userId: string, body: Json,
                                            policy: InvitationContent.DefaultPolicy, newId: string, now: int)
    requires NonEmptyString(body, "id").Some?
    requires Post(table, Some(userId), Some(body), policy, newId, now).response.status == 200
    ensures var id := NonEmptyString(body, "id").value;
      var t := Post(table, Some(userId), Some(body), policy, newId, now).table;
      && t.Keys == table.Keys
      && (forall k | k in table && k != id :: t[k] == table[k])
      && t[id] == table[id].(templateId := TemplateId(body), content := ContentToStore(body, policy))
      && t[id].status == Draft && t[id].userId == userId
  {
  }

  /** Without an id, a successful POST adds exactly one row: a draft owned by the caller with no slug. */
  lemma CreateInsertsDraft(table: Table, userId: string, body: Json,
                           policy: InvitationContent.DefaultPolicy, newId: string, now: int)
    requires NonEmptyString(body, "id").None?
    requires newId !in table
    ensures var r := Post(table, Some(userId), Some(body), policy, newId, now);
      && r.response.status == 200
      && r.table.Keys == table.Keys + {newId}
      && (forall k | k in table :: r.table[k] == table[k])
      && r.table[newId].userId == userId && r.table[newId].status == Draft && r.table[newId].slug.None?
      && r.table[newId].templateId == TemplateId(body)
      && r.table[newId].content == ContentToStore(body, policy)
  {
  }

  /** A body whose content fails validation is still written, with the content stored as `{}`. */
  lemma InvalidContentStoredEmpty(body: Json, policy: InvitationContent.DefaultPolicy)
    requires InvitationContent.Validate(ContentInput(body), policy).Failure?
    ensures ContentToStore(body, policy) == EmptyObject
  {
  }

  /** A body without a `content` member is itself validated as the content. */
  lemma BodyAsContent(fields: map<string, Json>, policy: InvitationContent.DefaultPolicy)
    requires "content" !in fields
    ensures ContentInput(JObj(fields)) == JObj(fields)
  {
  }
}

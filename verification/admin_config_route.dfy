/**
 * app/api/v1/admin/config/route.ts: the administrators' settings update
 * (PUT). The settings table is a map from key to stored value; which keys'
 * writes fail is a parameter.
 */
module AdminConfigRoute {
  import opened Wrappers
  import opened Js
  import Admin
  import AppConfig

  type Settings = map<string, Json>

  /** An array of at least one element, each an object with string `value` and `label`. */
  predicate IsChoiceList(j: Json) {
    j.JArr? && |j.items| > 0
    && forall i | 0 <= i < |j.items| ::
         IsObjectType(j.items[i]) && Truthy(j.items[i])
         && HasString(j.items[i], "value") && HasString(j.items[i], "label")
  }

  /** The translations member is accepted when it is truthy and of object type. */
  predicate IsLabelValue(j: Json) {
    Truthy(j) && IsObjectType(j)
  }

  /** The body member `key`, when present and accepted by `ok`. */
  predicate Accepted(body: Json, key: string, ok: Json -> bool) {
    Get(body, key).Some? && ok(Get(body, key).value)
  }

  /** The settings the update can write. */
  datatype SettingKey = CardLanguagesKey | PackagesKey | LabelTranslationsKey

  /** The key's name in the settings table. */
  function KeyName(k: SettingKey): (name: string)
    ensures k == CardLanguagesKey ==> |name| == 14
    ensures k == PackagesKey ==> |name| == 8
    ensures k == LabelTranslationsKey ==> |name| == 18
  {
    match k
    case CardLanguagesKey => "card_languages"
    case PackagesKey => "packages"
    case LabelTranslationsKey => "label_translations"
  }

  /** The body member each setting is taken from. */
  function Member(k: SettingKey): string {
    match k
    case CardLanguagesKey => "cardLanguages"
    case PackagesKey => "packages"
    case LabelTranslationsKey => "labelTranslations"
  }

  /** The check the body member must pass. */
  predicate AcceptedFor(body: Json, k: SettingKey) {
    match k
    case CardLanguagesKey => Accepted(body, "cardLanguages", IsChoiceList)
    case PackagesKey => Accepted(body, "packages", IsChoiceList)
    case LabelTranslationsKey => Accepted(body, "labelTranslations", IsLabelValue)
  }

  function Rank(k: SettingKey): nat {
    match k
    case CardLanguagesKey => 0
    case PackagesKey => 1
    case LabelTranslationsKey => 2
  }

  /** The update for one setting, when its body member is accepted. */
  function Piece(body: Json, k: SettingKey): (p: seq<(SettingKey, Json)>)
    ensures |p| <= 1
    ensures p != [] <==> AcceptedFor(body, k)
    ensures p != [] ==> p[0] == (k, Get(body, Member(k)).value)
  {
    if AcceptedFor(body, k) then [(k, Get(body, Member(k)).value)] else []
  }

  /**
   * The updates a body yields: card_languages, then packages, then
   * label_translations, each only when its member is accepted. A member
   * that fails its check is ignored, not reported.
   */
  function Updates(body: Json): (u: seq<(SettingKey, Json)>)
    ensures |u| <= 3
    ensures forall i, j | 0 <= i < j < |u| :: Rank(u[i].0) < Rank(u[j].0)
    ensures forall i | 0 <= i < |u| :: Get(body, Member(u[i].0)) == Some(u[i].1)
    ensures forall k :: (exists i | 0 <= i < |u| :: u[i].0 == k) <==> AcceptedFor(body, k)
  {
    var a := Piece(body, CardLanguagesKey);
    var b := Piece(body, PackagesKey);
    var c := Piece(body, LabelTranslationsKey);
    var u := a + b + c;
    assert a != [] ==> u[0] == a[0];
    assert b != [] ==> u[|a|] == b[0];
    assert c != [] ==> u[|a| + |b|] == c[0];
    u
  }

  /** The result of writing the updates one after another. */
  datatype Written = Written(failedAt: Option<SettingKey>, settings: Settings)

  /** All of `updates` applied in order, later ones winning. */
  function ApplyAll(settings: Settings, updates: seq<(SettingKey, Json)>): Settings
    decreases |updates|
  {
    if |updates| == 0 then settings
    else ApplyAll(settings[KeyName(updates[0].0) := updates[0].1], updates[1..])
  }

  /** The position of the first update whose write fails, if any. */
  function FirstFailing(updates: seq<(SettingKey, Json)>, failing: set<SettingKey>): (r: Option<nat>)
    ensures r.None? <==> forall i | 0 <= i < |updates| :: updates[i].0 !in failing
    ensures r.Some? ==> r.value < |updates| && updates[r.value].0 in failing
    ensures r.Some? ==> forall j | 0 <= j < r.value :: updates[j].0 !in failing
    decreases |updates|
  {
    if |updates| == 0 then None
    else if updates[0].0 in failing then Some(0)
    else
      match FirstFailing(updates[1..], failing)
      case None => None
      case Some(i) => Some(i + 1)
  }

  /** Upserting in order, stopping at the first key whose write fails; earlier writes stay applied. */
  function Upsert(settings: Settings, updates: seq<(SettingKey, Json)>, failing: set<SettingKey>): (w: Written)
    ensures w.failedAt.None? <==> forall i | 0 <= i < |updates| :: updates[i].0 !in failing
    ensures w.failedAt.None? ==> w.settings == ApplyAll(settings, updates)
    ensures w.failedAt.Some? ==> exists i | 0 <= i < |updates| ::
              && updates[i].0 == w.failedAt.value && updates[i].0 in failing
              && (forall j | 0 <= j < i :: updates[j].0 !in failing)
              && w.settings == ApplyAll(settings, updates[..i])
  {
    match FirstFailing(updates, failing)
    case None => Written(None, ApplyAll(settings, updates))
    case Some(i) => Written(Some(updates[i].0), ApplyAll(settings, updates[..i]))
  }

  datatype Body = ErrorBody(message: string) | WriteFailed(key: SettingKey) | OkBody | Uncaught

  datatype Outcome = Outcome(status: nat, body: Body, settings: Settings)

  /**
   * PUT. In order: a user (401), an administrator (403), a parseable body
   * (400 "Invalid JSON"), at least one accepted member (400 "No valid
   * updates"), then the writes (500 at the first failure, `{ok: true}` after
   * all). A body that is JSON `null` makes the member reads throw, which
   * the framework answers with 500.
   */
  function Put(settings: Settings, user: Option<Option<string>>, adminEmails: Option<string>,
               body: Option<Json>, failing: set<SettingKey>): (r: Outcome)
    ensures user.None? ==> r == Outcome(401, ErrorBody("Unauthorized"), settings)
    ensures user.Some? && !Admin.IsAdmin(user.value, adminEmails) ==> r == Outcome(403, ErrorBody("Forbidden"), settings)
    ensures user.Some? && Admin.IsAdmin(user.value, adminEmails) && body.None?
            ==> r == Outcome(400, ErrorBody("Invalid JSON"), settings)
    ensures r.status == 200 ==> r.body == OkBody && body.Some? && r.settings == ApplyAll(settings, Updates(body.value))
    ensures r.status != 200 && r.status != 500 ==> r.settings == settings
  {
    if user.None? then Outcome(401, ErrorBody("Unauthorized"), settings)
    else if !Admin.IsAdmin(user.value, adminEmails) then Outcome(403, ErrorBody("Forbidden"), settings)
    else if body.None? then Outcome(400, ErrorBody("Invalid JSON"), settings)
    else if body.value == JNull then Outcome(500, Uncaught, settings)
    else
      var updates := Updates(body.value);
      if |updates| == 0 then Outcome(400, ErrorBody("No valid updates"), settings)
      else
        var w := Upsert(settings, updates, failing);
        if w.failedAt.Some? then Outcome(500, WriteFailed(w.failedAt.value), w.settings)
        else Outcome(200, OkBody, w.settings)
  }

  /**
   * A body with no accepted member writes nothing, whoever sends it; an
   * administrator is answered 400 "No valid updates".
   */
  lemma NothingAcceptedNothingWritten(settings: Settings, email: Option<string>, adminEmails: Option<string>,
                                      body: Json, failing: set<SettingKey>)
    requires body != JNull
    requires forall k :: !AcceptedFor(body, k)
    ensures Put(settings, Some(email), adminEmails, Some(body), failing).settings == settings
    ensures Admin.IsAdmin(email, adminEmails) ==>
              Put(settings, Some(email), adminEmails, Some(body), failing)
              == Outcome(400, ErrorBody("No valid updates"), settings)
  {
  }

  /** How the settings table answers a read of `key`. */
  function Read(settings: Settings, key: string): AppConfig.ConfigRead {
    if key in settings then AppConfig.Found(settings[key]) else AppConfig.NoRow
  }

  /** Applying updates leaves a key none of them names as it was. */
  lemma {:induction false} ApplyAllOther(settings: Settings, updates: seq<(SettingKey, Json)>, key: string)
    requires forall i | 0 <= i < |updates| :: KeyName(updates[i].0) != key
    ensures key in ApplyAll(settings, updates) <==> key in settings
    ensures key in settings ==> ApplyAll(settings, updates)[key] == settings[key]
    decreases |updates|
  {
    if |updates| > 0 {
      ApplyAllOther(settings[KeyName(updates[0].0) := updates[0].1], updates[1..], key);
    }
  }

  /** A first write to `card_languages` that no later update names is the value left there. */
  lemma FirstWriteKept(settings: Settings, v: seq<(SettingKey, Json)>)
    requires |v| > 0 && v[0].0 == CardLanguagesKey
    requires forall i | 1 <= i < |v| :: v[i].0 != CardLanguagesKey
    ensures "card_languages" in ApplyAll(settings, v)
    ensures ApplyAll(settings, v)["card_languages"] == v[0].1
  {
    var rest := v[1..];
    forall i | 0 <= i < |rest| ensures KeyName(rest[i].0) != "card_languages" {
      assert rest[i] == v[i + 1];
    }
    ApplyAllOther(settings["card_languages" := v[0].1], rest, "card_languages");
  }

  /** An administrator's body with at least one accepted member leads to the writes, which end in 200 or 500. */
  lemma PutWrites(settings: Settings, email: Option<string>, adminEmails: Option<string>,
                  body: Json, failing: set<SettingKey>)
    requires body != JNull && |Updates(body)| > 0
    ensures var r := Put(settings, Some(email), adminEmails, Some(body), failing);
      Admin.IsAdmin(email, adminEmails) ==>
        && r.settings == Upsert(settings, Updates(body), failing).settings
        && (r.status == 200 || r.body.WriteFailed?)
  {
  }

  /** When the first update is the languages and its write succeeds, it is stored whatever fails later. */
  lemma UpsertKeepsFirst(settings: Settings, u: seq<(SettingKey, Json)>, failing: set<SettingKey>)
    requires |u| > 0 && u[0].0 == CardLanguagesKey && CardLanguagesKey !in failing
    requires forall i | 1 <= i < |u| :: u[i].0 != CardLanguagesKey
    ensures "card_languages" in Upsert(settings, u, failing).settings
    ensures Upsert(settings, u, failing).settings["card_languages"] == u[0].1
  {
    match FirstFailing(u, failing)
    case None =>
      FirstWriteKept(settings, u);
    case Some(i) =>
      assert i > 0;
      FirstWriteKept(settings, u[..i]);
  }

  /** An accepted language list is the first update, and the only one for its key. */
  lemma LanguagesFirst(body: Json)
    requires Accepted(body, "cardLanguages", IsChoiceList)
    ensures var u := Updates(body);
      && |u| > 0 && u[0] == (CardLanguagesKey, Get(body, "cardLanguages").value)
      && forall i | 1 <= i < |u| :: u[i].0 != CardLanguagesKey
  {
    var u := Updates(body);
    assert AcceptedFor(body, CardLanguagesKey);
    var k :| 0 <= k < |u| && u[k].0 == CardLanguagesKey;
    assert k == 0;
    forall i | 1 <= i < |u| ensures u[i].0 != CardLanguagesKey {
      assert Rank(u[0].0) < Rank(u[i].0);
    }
  }

  /**
   * An administrator's valid language list is written first, so unless that
   * very write fails it is stored, even when a later write fails; reading
   * the languages back then returns that list. Anyone else is answered 403
   * and nothing changes.
   */
  lemma LanguagesRoundTrip(settings: Settings, email: Option<string>, adminEmails: Option<string>,
                           body: Json, failing: set<SettingKey>)
    requires Accepted(body, "cardLanguages", IsChoiceList)
    requires CardLanguagesKey !in failing
    ensures var r := Put(settings, Some(email), adminEmails, Some(body), failing);
      Admin.IsAdmin(email, adminEmails) ==>
        && (r.status == 200 || r.body.WriteFailed?)
        && AppConfig.CardLanguages(Read(r.settings, "card_languages")) == Get(body, "cardLanguages").value
    ensures var r := Put(settings, Some(email), adminEmails, Some(body), failing);
      !Admin.IsAdmin(email, adminEmails) ==> r.status == 403 && r.settings == settings
  {
    if !Admin.IsAdmin(email, adminEmails) {
      return;
    }
    var langs := Get(body, "cardLanguages").value;
    LanguagesFirst(body);
    assert body != JNull;
    PutWrites(settings, email, adminEmails, body, failing);
    UpsertKeepsFirst(settings, Updates(body), failing);
    var r := Put(settings, Some(email), adminEmails, Some(body), failing);
    assert Read(r.settings, "card_languages") == AppConfig.Found(langs);
  }
}

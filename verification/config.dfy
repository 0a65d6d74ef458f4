/**
 * lib/config.ts: application settings read from the app_config table, each
 * with a built-in default. The outcome of the table read is a parameter.
 */
module AppConfig {
  import opened Wrappers
  import opened Js

  /** How reading one key went: the query failed, no row, a stored value, or an exception. */
  datatype ConfigRead = QueryFailed | NoRow | Found(value: Json) | Threw

  /** `getConfigKey`: the stored value when there is one and it is truthy, else the default. */
  function ConfigKey(read: ConfigRead, default: Json): (r: Json)
    ensures read.Found? && Truthy(read.value) ==> r == read.value
    ensures !(read.Found? && Truthy(read.value)) ==> r == default
  {
    match read
    case Found(v) => if Truthy(v) then v else default
    case _ => default
  }

  /** A card language or a package: a value, its label, and (for packages) an optional popular mark. */
  datatype Choice = Choice(value: string, labelText: string, isPopular: Option<bool>)

  function ChoiceJson(c: Choice): Json {
    ObjectOf([("value", JStr(c.value)), ("label", JStr(c.labelText))]
             + (if c.isPopular.Some? then [("isPopular", JBool(c.isPopular.value))] else []))
  }

  function ChoicesJson(cs: seq<Choice>): (j: Json)
    ensures j.JArr? && |j.items| == |cs|
  {
    JArr(seq(|cs|, i requires 0 <= i < |cs| => ChoiceJson(cs[i])))
  }

  function DefaultCardLanguages(): seq<Choice> {
    [Choice("bahasa-melayu", "Bahasa Melayu", None),
     Choice("english", "English", None),
     Choice("arabic", "Arabic", None)]
  }

  function DefaultPackages(): seq<Choice> {
    [Choice("standard", "Standard", None),
     Choice("premium", "Premium", None),
     Choice("gold", "Gold", Some(true))]
  }

  /** The stored list when it is a non-empty array, else `fallback`. */
  function ListOr(read: ConfigRead, fallback: seq<Choice>): (r: Json)
    requires |fallback| > 0
    ensures r.JArr? && |r.items| > 0
    ensures r != ChoicesJson(fallback) ==> read.Found? && r == read.value
  {
    var stored := ConfigKey(read, JArr([]));
    if stored.JArr? && |stored.items| > 0 then stored else ChoicesJson(fallback)
  }

  /** `getCardLanguages`: a stored non-empty array as it is, else the three default languages. */
  function CardLanguages(read: ConfigRead): (r: Json)
    ensures r.JArr? && |r.items| > 0
    ensures read.Found? && read.value.JArr? && |read.value.items| > 0 ==> r == read.value
    ensures !(read.Found? && read.value.JArr? && |read.value.items| > 0) ==> r == ChoicesJson(DefaultCardLanguages())
  {
    ListOr(read, DefaultCardLanguages())
  }

  /** `getPackages`: a stored non-empty array as it is, else the three default packages. */
  function Packages(read: ConfigRead): (r: Json)
    ensures r.JArr? && |r.items| > 0
    ensures read.Found? && read.value.JArr? && |read.value.items| > 0 ==> r == read.value
    ensures !(read.Found? && read.value.JArr? && |read.value.items| > 0) ==> r == ChoicesJson(DefaultPackages())
  {
    ListOr(read, DefaultPackages())
  }

  /** The default languages, in order. */
  lemma DefaultLanguageOrder()
    ensures |DefaultCardLanguages()| == 3
    ensures DefaultCardLanguages()[0].value == "bahasa-melayu"
    ensures DefaultCardLanguages()[1].value == "english"
    ensures DefaultCardLanguages()[2].value == "arabic"
  {
  }

  /** Among the default packages only "gold" is marked popular. */
  lemma OnlyGoldPopular()
    ensures forall c | c in DefaultPackages() :: c.isPopular == Some(true) <==> c.value == "gold"
  {
  }

  /** A label table: message keys and their texts, in source order. */
  type LabelTable = seq<(string, string)>

  function EnglishLabels(): LabelTable {
    [("dearPrefix", "Dear"),
     ("to", "To:"),
     ("dearGuest", "Dear Guest"),
     ("tapSealToOpen", "Tap the seal to open"),
     ("saveTheDate", "Save the Date"),
     ("venue", "Venue"),
     ("gallery", "Gallery"),
     ("wishes", "Wishes"),
     ("visibleToAllGuests", "Visible to all guests"),
     ("rsvp", "RSVP"),
     ("rsvpDefaultMessage", "Please let us know if you can make it!"),
     ("pleaseRespondBy", "Please respond by"),
     ("attending", "Attending"),
     ("notAttending", "Not Attending"),
     ("addToCalendar", "Add to Calendar"),
     ("refresh", "Refresh"),
     ("call", "Call"),
     ("music", "Music"),
     ("map", "Map"),
     ("maps", "Maps"),
     ("waze", "Waze")]
  }

  function MalayLabels(): LabelTable {
    [("dearPrefix", "Kepada"),
     ("to", "Kepada:"),
     ("dearGuest", "Kepada Tetamu"),
     ("tapSealToOpen", "Sentuh mohor untuk membuka"),
     ("saveTheDate", "Jimat Tarikh"),
     ("venue", "Lokasi"),
     ("gallery", "Galeri"),
     ("wishes", "Ucapan"),
     ("visibleToAllGuests", "Boleh dilihat oleh semua tetamu"),
     ("rsvp", "RSVP"),
     ("rsvpDefaultMessage", "Sila maklumkan jika anda dapat hadir!"),
     ("pleaseRespondBy", "Sila balas sebelum"),
     ("attending", "Akan Hadir"),
     ("notAttending", "Tidak Dapat Hadir"),
     ("addToCalendar", "Tambah ke Kalendar"),
     ("refresh", "Muat Semula"),
     ("call", "Panggil"),
     ("music", "Muzik"),
     ("map", "Peta"),
     ("maps", "Maps"),
     ("waze", "Waze")]
  }

  /** A label table as the members of an object literal. */
  function Members(t: LabelTable): (ms: seq<(string, Json)>)
    ensures |ms| == |t|
  {
    seq(|t|, i requires 0 <= i < |t| => (t[i].0, JStr(t[i].1)))
  }

  function TableJson(t: LabelTable): (j: Json)
    ensures j.JObj?
    ensures forall i | 0 <= i < |t| :: t[i].0 in j.fields
    ensures forall k | k in j.fields :: exists i | 0 <= i < |t| :: t[i].0 == k
  {
    var ms := Members(t);
    assert forall i | 0 <= i < |t| :: KeysOf(ms)[i] == t[i].0;
    ObjectOf(ms)
  }

  function DefaultLabelTranslations(): (j: Json)
    ensures j.JObj? && |j.fields| > 0
  {
    JObj(map["english" := TableJson(EnglishLabels()), "bahasa-melayu" := TableJson(MalayLabels())])
  }

  /** `Object.keys(j).length` for an object-typed value (an array's keys are its indices). */
  function KeyCount(j: Json): nat {
    match j
    case JObj(fields) => |fields|
    case JArr(items) => |items|
    case _ => 0
  }

  /** Where the label translations come from: the stored value, or the built-in tables. */
  datatype LabelSource = StoredLabels(value: Json) | DefaultLabels

  /** `getLabelTranslations`: a stored object with at least one key as it is, else the default tables. */
  function LabelTranslations(read: ConfigRead): (r: LabelSource)
    ensures r.StoredLabels? <==> read.Found? && (read.value.JObj? || read.value.JArr?) && KeyCount(read.value) > 0
    ensures r.StoredLabels? ==> r.value == read.value
  {
    var stored := ConfigKey(read, JObj(map[]));
    if Truthy(stored) && IsObjectType(stored) && KeyCount(stored) > 0 then StoredLabels(stored) else DefaultLabels
  }

  /** The value a label source stands for. */
  function LabelsJson(s: LabelSource): Json {
    if s.StoredLabels? then s.value else DefaultLabelTranslations()
  }

  /** The translations returned are always an object-typed value with at least one key. */
  lemma LabelTranslationsNonEmpty(read: ConfigRead)
    ensures var j := LabelsJson(LabelTranslations(read));
      (j.JObj? || j.JArr?) && KeyCount(j) > 0
  {
    if LabelTranslations(read).DefaultLabels? {
      DefaultLabelsNonEmpty();
    }
  }

  lemma DefaultLabelsNonEmpty()
    ensures LabelsJson(DefaultLabels).JObj? && KeyCount(LabelsJson(DefaultLabels)) > 0
  {
    var d := DefaultLabelTranslations();
    assert |d.fields| > 0;
  }

  /** The default English and Malay tables define the same keys, in the same order. */
  lemma DefaultTablesSameKeys()
    ensures KeysOf(Members(EnglishLabels())) == KeysOf(Members(MalayLabels()))
    ensures TableJson(EnglishLabels()).fields.Keys == TableJson(MalayLabels()).fields.Keys
  {
    var e, m := EnglishLabels(), MalayLabels();
    forall i | 0 <= i < 21 ensures KeysOf(Members(e))[i] == KeysOf(Members(m))[i] {
    }
  }
}

/**
 * lib/templatesDb.ts `mapRow`: turning a row of the templates table into the
 * template record the API returns. Nullable columns get fixed fallbacks.
 */
module TemplatesDb {
  import opened Wrappers
  import opened Js
  import opened Templates

  /** A templates-table row; `None` is a SQL null, the JSON columns hold parsed JSON. */
  datatype TemplateRow = TemplateRow(
    id: string,
    name: string,
    thumbnailUrl: string,
    themes: Option<seq<string>>,
    styles: Option<seq<string>>,
    tier: string,
    tags: Option<seq<string>>,
    colors: Json,
    design: Json,
    envelopeIntro: Json,
    defaultAudioUrl: Option<string>)

  datatype ApiTemplate = ApiTemplate(
    id: string,
    name: string,
    thumbnail: string,
    themes: seq<string>,
    styles: seq<string>,
    tier: Tier,
    tags: seq<string>,
    colors: Json,
    design: Json,
    envelopeIntro: Option<Json>,
    defaultAudioUrl: Option<string>)

  /** The palette used when a row has no colors. */
  function FallbackColors(): Json {
    JObj(map["bg" := JStr("#fff"), "text" := JStr("#000"), "accent" := JStr("#666"), "muted" := JStr("#999")])
  }

  /** `mapRow`. */
  function MapRow(row: TemplateRow): (t: ApiTemplate)
    ensures t.id == row.id && t.name == row.name && t.thumbnail == row.thumbnailUrl
    ensures t.tier == Premium <==> row.tier == "premium"
    ensures row.themes.None? ==> t.themes == [] 
    ensures row.themes.Some? ==> t.themes == row.themes.value
    ensures row.styles.None? ==> t.styles == []
    ensures row.styles.Some? ==> t.styles == row.styles.value
    ensures row.tags.None? ==> t.tags == []
    ensures row.tags.Some? ==> t.tags == row.tags.value
    ensures t.colors == (if row.colors == JNull then FallbackColors() else row.colors)
    ensures t.design == (if row.design == JNull then JObj(map[]) else row.design)
    ensures t.envelopeIntro.None? <==> !Truthy(row.envelopeIntro)
    ensures t.envelopeIntro.Some? ==> t.envelopeIntro.value == row.envelopeIntro
    ensures t.defaultAudioUrl == row.defaultAudioUrl
  {
    ApiTemplate(
      row.id,
      row.name,
      row.thumbnailUrl,
      row.themes.GetOr([]),
      row.styles.GetOr([]),
      if row.tier == "premium" then Premium else Free,
      row.tags.GetOr([]),
      if row.colors == JNull then FallbackColors() else row.colors,
      if row.design == JNull then JObj(map[]) else row.design,
      if Truthy(row.envelopeIntro) then Some(row.envelopeIntro) else None,
      row.defaultAudioUrl)
  }

  /** A template as the API could return it: no SQL nulls left in the colors and design. */
  predicate Normalised(t: ApiTemplate) {
    t.colors != JNull && t.design != JNull && (t.envelopeIntro.Some? ==> Truthy(t.envelopeIntro.value))
  }

  /** The row that stores a template as it is. */
  function RowOf(t: ApiTemplate): TemplateRow {
    TemplateRow(t.id, t.name, t.thumbnail, Some(t.themes), Some(t.styles),
                TierName(t.tier), Some(t.tags),
                t.colors, t.design, if t.envelopeIntro.Some? then t.envelopeIntro.value else JNull,
                t.defaultAudioUrl)
  }

  /** Every mapped row is normalised. */
  lemma MapRowNormalised(row: TemplateRow)
    ensures Normalised(MapRow(row))
  {
  }

  /** Mapping the row of a normalised template gives the template back. */
  lemma MapRowOfTemplate(t: ApiTemplate)
    requires Normalised(t)
    ensures MapRow(RowOf(t)) == t
  {
  }

  /** Any tier other than exactly "premium" (another case, extra spaces, unknown) maps to free. */
  lemma OtherTiersAreFree(row: TemplateRow)
    requires row.tier != "premium"
    ensures MapRow(row).tier == Free
  {
  }

  /** The fallback palette's four colors. */
  lemma FallbackPalette()
    ensures FallbackColors().fields.Keys == {"bg", "text", "accent", "muted"}
    ensures FallbackColors().fields["bg"] == JStr("#fff") && FallbackColors().fields["text"] == JStr("#000")
    ensures FallbackColors().fields["accent"] == JStr("#666") && FallbackColors().fields["muted"] == JStr("#999")
  {
  }
}

/**
 * lib/templates.ts: the built-in catalogue of invitation designs, with the
 * event themes and style tags a design can carry.
 */
module Templates {

  datatype EventTheme = Wedding | EDay | Birthday | OpenHouse | Corporate | BabyAqiqah

  datatype StyleTag = Minimal | Floral | Cute | Elegant | Traditional | Modern

  datatype Tier = Free | Premium

  function ThemeName(t: EventTheme): string {
    match t
    case Wedding => "Wedding"
    case EDay => "E-Day"
    case Birthday => "Birthday"
    case OpenHouse => "Open House"
    case Corporate => "Corporate"
    case BabyAqiqah => "Baby/Aqiqah"
  }

  function StyleName(s: StyleTag): string {
    match s
    case Minimal => "Minimal"
    case Floral => "Floral"
    case Cute => "Cute"
    case Elegant => "Elegant"
    case Traditional => "Traditional"
    case Modern => "Modern"
  }

  function TierName(t: Tier): string {
    if t == Free then "free" else "premium"
  }

  datatype Template = Template(
    id: string,
    name: string,
    thumbnail: string,
    themes: seq<EventTheme>,
    styles: seq<StyleTag>,
    tier: Tier,
    tags: seq<string>)

  /** `EVENT_THEMES`, in display order. */
  function EventThemes(): seq<EventTheme> {
    [Wedding, EDay, Birthday, OpenHouse, Corporate, BabyAqiqah]
  }

  /** `STYLE_TAGS`, in display order. */
  function StyleTags(): seq<StyleTag> {
    [Minimal, Floral, Cute, Elegant, Traditional, Modern]
  }

  /** `TEMPLATES`. */
  function Catalogue(): seq<Template> {
    [Template("elegant-rose", "Elegant Rose", "/templates/elegant-rose.jpg",
              [Wedding], [Floral, Elegant], Premium, ["rose", "blush", "romantic", "feminine"]),
     Template("golden-arch", "Golden Arch", "/templates/golden-arch.jpg",
              [Wedding, EDay], [Elegant, Modern], Premium, ["gold", "arch", "art deco", "luxury"]),
     Template("sakura-bloom", "Sakura Bloom", "/templates/sakura-bloom.jpg",
              [Birthday], [Cute, Floral], Free, ["cherry blossom", "pink", "japanese", "spring"]),
     Template("midnight-garden", "Midnight Garden", "/templates/midnight-garden.jpg",
              [Wedding, EDay], [Elegant, Modern], Premium, ["dark", "botanical", "navy", "moody"]),
     Template("corporate-slate", "Corporate Slate", "/templates/corporate-slate.jpg",
              [Corporate, OpenHouse], [Minimal, Modern], Free, ["business", "professional", "clean", "formal"]),
     Template("tropical-fiesta", "Tropical Fiesta", "/templates/tropical-fiesta.jpg",
              [Birthday, OpenHouse], [Modern, Cute], Free, ["tropical", "party", "palm", "vibrant", "fun"]),
     Template("rustic-kraft", "Rustic Kraft", "/templates/rustic-kraft.jpg",
              [Wedding], [Traditional, Floral], Free, ["rustic", "kraft", "botanical", "vintage", "wildflower"]),
     Template("baby-clouds", "Baby Clouds", "/templates/baby-clouds.jpg",
              [BabyAqiqah], [Cute, Minimal], Premium, ["baby", "shower", "aqiqah", "pastel", "dreamy"]),
     Template("islamic-geometric", "Islamic Geometric", "/templates/islamic-geometric.jpg",
              [Wedding, EDay, OpenHouse], [Traditional, Elegant], Premium, ["islamic", "geometric", "arabesque", "ornate"])]
  }

  /** Each theme list names every theme exactly once; likewise the style list. */
  lemma ThemeAndStyleListsComplete()
    ensures forall t: EventTheme :: t in EventThemes()
    ensures forall i, j | 0 <= i < j < |EventThemes()| :: EventThemes()[i] != EventThemes()[j]
    ensures forall s: StyleTag :: s in StyleTags()
    ensures forall i, j | 0 <= i < j < |StyleTags()| :: StyleTags()[i] != StyleTags()[j]
  {
    var ts, ss := EventThemes(), StyleTags();
    forall t: EventTheme ensures t in ts {
      match t
      case Wedding => assert ts[0] == t;
      case EDay => assert ts[1] == t;
      case Birthday => assert ts[2] == t;
      case OpenHouse => assert ts[3] == t;
      case Corporate => assert ts[4] == t;
      case BabyAqiqah => assert ts[5] == t;
    }
    forall s: StyleTag ensures s in ss {
      match s
      case Minimal => assert ss[0] == s;
      case Floral => assert ss[1] == s;
      case Cute => assert ss[2] == s;
      case Elegant => assert ss[3] == s;
      case Traditional => assert ss[4] == s;
      case Modern => assert ss[5] == s;
    }
  }

  /** The display names of the themes are pairwise different, as are those of the styles. */
  lemma NamesDistinct()
    ensures forall a: EventTheme, b: EventTheme | a != b :: ThemeName(a) != ThemeName(b)
    ensures forall a: StyleTag, b: StyleTag | a != b :: StyleName(a) != StyleName(b)
  {
  }

  /** Catalogue ids are pairwise distinct. */
  lemma CatalogueIdsDistinct()
    ensures forall i, j | 0 <= i < j < |Catalogue()| :: Catalogue()[i].id != Catalogue()[j].id
  {
  }

  /** Every design has at least one theme and at least one style. */
  lemma CatalogueHasThemesAndStyles()
    ensures forall i | 0 <= i < |Catalogue()| :: |Catalogue()[i].themes| >= 1 && |Catalogue()[i].styles| >= 1
  {
  }
}

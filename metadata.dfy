/** Page metadata: the site defaults and how a page's own title, description, path and image override them. */
module Metadata {
  import opened Wrappers
  import opened Text

  const SiteTitle: string := "Fluent Journey: 나만의 단어장을 만들고 공유할 수 있는 서비스"
  const SiteDescription: string :=
    "개인 맞춤형 단어장을 만들어 영어 실력을 향상해보세요. 플래시카드로 학습하고, 다른 사용자들과 단어장을 공유할 수 있어요."
  const Keywords: seq<string> := ["vocabulary builder", "English learning", "flashcards"]
  const SiteUrl: string := "https://fluent-journey.vercel.app"
  const SiteOgImage: string := "/card-image2.png"
  const Locale: string := "ko_KR"

  /** The optional fields a page passes. */
  datatype Props = Props(title: Option<string>, description: Option<string>, asPath: Option<string>, ogImage: Option<string>)

  datatype OpenGraph = OpenGraph(title: string, description: string, siteName: string, locale: string,
                                 kind: string, url: string, image: string)
  datatype Twitter = Twitter(title: string, description: string, image: string)
  datatype Metadata = Metadata(base: string, canonical: string, title: string, description: string,
                               keywords: seq<string>, openGraph: OpenGraph, twitter: Twitter)

  /** `title ? "title | META.title" : META.title`. */
  function PageTitle(title: Option<string>): (r: string)
    ensures Truthy(title) ==> r == title.value + " | " + SiteTitle
    ensures !Truthy(title) ==> r == SiteTitle
  {
    if Truthy(title) then title.value + " | " + SiteTitle else SiteTitle
  }

  /** `value || fallback`. */
  function OrDefault(value: Option<string>, fallback: string): (r: string)
    ensures r == fallback || (value.Some? && r == value.value)
    ensures r == "" ==> fallback == ""
  {
    if Truthy(value) then value.value else fallback
  }

  /** The canonical URL: the page's path when it is not blank, the site URL otherwise. */
  function PageUrl(asPath: Option<string>): (r: string)
    ensures asPath.Some? && Trim(asPath.value) != "" ==> r == asPath.value
    ensures asPath.None? || Trim(asPath.value) == "" ==> r == SiteUrl
  {
    if asPath.Some? && asPath.value != "" && Trim(asPath.value) != "" then asPath.value else SiteUrl
  }

  const NoProps := Props(None, None, None, None)

  /** `getMetadata(metadataProps?)`; an absent argument reads as an empty object. */
  function GetMetadata(props: Option<Props>): (m: Metadata)
    ensures m.base == SiteUrl && m.keywords == Keywords
    ensures m.openGraph.locale == Locale && m.openGraph.kind == "website"
  {
    var p := props.GetOr(NoProps);
    var title := PageTitle(p.title);
    var description := OrDefault(p.description, SiteDescription);
    var url := PageUrl(p.asPath);
    var image := OrDefault(p.ogImage, SiteOgImage);
    Metadata(SiteUrl, url, title, description, Keywords,
             OpenGraph(title, description, title, Locale, "website", url, image),
             Twitter(title, description, image))
  }

  /** The title, description, URL and image are the same in every place they appear. */
  lemma SameValuesEverywhere(props: Option<Props>)
    ensures var m := GetMetadata(props);
      m.openGraph.title == m.title && m.openGraph.siteName == m.title && m.twitter.title == m.title
      && m.openGraph.description == m.description && m.twitter.description == m.description
      && m.openGraph.url == m.canonical && m.twitter.image == m.openGraph.image
  {
  }

  /** Each field takes the page's value when it is set and not empty, and the site's default otherwise. */
  lemma OverridesAndFallbacks(p: Props)
    ensures var m := GetMetadata(Some(p));
      (Truthy(p.title) <==> m.title != SiteTitle)
      && (Truthy(p.description) ==> m.description == p.description.value)
      && (!Truthy(p.description) ==> m.description == SiteDescription)
      && (Truthy(p.ogImage) ==> m.openGraph.image == p.ogImage.value)
      && (!Truthy(p.ogImage) ==> m.openGraph.image == SiteOgImage)
  {
    if Truthy(p.title) {
      assert |GetMetadata(Some(p)).title| > |SiteTitle|;
    }
  }

  /** A blank path, such as "  ", falls back to the site URL. */
  lemma BlankPathFallsBack()
    ensures GetMetadata(Some(Props(None, None, Some("  "), None))).canonical == SiteUrl
  {
    assert Trim("  ") == "" by {
      TrimEmptyIffAllSpace("  ");
    }
  }

  /** Without an argument every field is the site default. */
  lemma NoArgumentGivesDefaults()
    ensures var m := GetMetadata(None);
      m.title == SiteTitle && m.description == SiteDescription && m.canonical == SiteUrl
      && m.openGraph.image == SiteOgImage && m == GetMetadata(Some(NoProps))
  {
  }
}

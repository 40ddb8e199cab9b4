/**
 * The feeds page: the list of feed sources with their categories, the chosen
 * source and category, when feeds are requested, and how old an article reads.
 */
module Feeds {
  import opened Wrappers

  /** How long ago an article was published, in the unit the page picks. */
  datatype RelativeTime = MinutesAgo(minutes: int) | HoursAgo(hours: int) | DaysAgo(days: int)

  const MinuteMs: int := 1000 * 60
  const HourMs: int := 1000 * 60 * 60
  const DayMs: int := 1000 * 60 * 60 * 24

  /** `formatRelativeTime(timestamp)` at the instant `now`, both in milliseconds. */
  function FormatRelativeTime(now: int, timestamp: int): RelativeTime {
    var diff := now - timestamp;
    var minutes := diff / MinuteMs;
    var hours := diff / HourMs;
    var days := diff / DayMs;
    if minutes < 60 then MinutesAgo(minutes) else if hours < 24 then HoursAgo(hours) else DaysAgo(days)
  }

  /**
   * The buckets by elapsed time: under an hour in minutes, under a day in
   * hours, otherwise in days, each the whole number of units elapsed.
   */
  lemma RelativeTimeBuckets(now: int, timestamp: int)
    ensures var diff := now - timestamp; var r := FormatRelativeTime(now, timestamp);
      && (r.MinutesAgo? <==> diff < HourMs)
      && (r.HoursAgo? <==> HourMs <= diff < DayMs)
      && (r.DaysAgo? <==> DayMs <= diff)
      && (r.MinutesAgo? ==> r.minutes * MinuteMs <= diff < (r.minutes + 1) * MinuteMs)
      && (r.HoursAgo? ==> r.hours * HourMs <= diff < (r.hours + 1) * HourMs && r.hours < 24)
      && (r.DaysAgo? ==> r.days * DayMs <= diff < (r.days + 1) * DayMs && r.days >= 1)
  {
  }

  /** A feed article. */
  datatype Feed = Feed(title: string, link: string, image: string, description: string, publishedDate: int)

  datatype FeedsResponse = FeedsResponse(title: string, update: int, source: string, category: string, size: int, feeds: seq<Feed>)

  /** The source map, in the order `Object.keys` lists it. */
  type Sources = seq<(string, seq<string>)>

  /** `sources[source]`: the categories of the first entry with that name. */
  function CategoriesOf(sources: Sources, source: string): Option<seq<string>> {
    if sources == [] then None
    else if sources[0].0 == source then Some(sources[0].1)
    else CategoriesOf(sources[1..], source)
  }

  datatype FeedsError = HttpStatus(status: int) | Unreachable

  datatype Fetch<T> = FetchHttpError(status: int) | FetchUnreachable | FetchBody(body: T)

  /** The selection after the sources arrive: the first source and its first category, when that source has one. */
  function DefaultSelection(data: Sources, source: string, category: string): (r: (string, string))
    ensures |data| > 0 && data[0].0 != "" && |data[0].1| > 0 ==> r == (data[0].0, data[0].1[0])
    ensures !(|data| > 0 && data[0].0 != "" && |data[0].1| > 0) ==> r == (source, category)
  {
    if |data| > 0 && data[0].0 != "" && |data[0].1| > 0 then (data[0].0, data[0].1[0]) else (source, category)
  }

  /** The selection after choosing `source`: its first category when it has any, the old category otherwise. */
  function SourceChanged(sources: Sources, source: string, category: string): (r: (string, string))
    ensures r.0 == source
    ensures var c := CategoriesOf(sources, source); c.Some? && |c.value| > 0 ==> r.1 == c.value[0]
    ensures var c := CategoriesOf(sources, source); !(c.Some? && |c.value| > 0) ==> r.1 == category
  {
    var c := CategoriesOf(sources, source);
    if c.Some? && |c.value| > 0 then (source, c.value[0]) else (source, category)
  }

  /** Feeds are requested only for a chosen source and category. */
  function FeedsRequest(source: string, category: string): (r: Option<(string, string)>)
    ensures r.Some? <==> source != "" && category != ""
    ensures r.Some? ==> r.value == (source, category)
  {
    if source != "" && category != "" then Some((source, category)) else None
  }

  /**
   * The default selection, once the sources arrive, is a listed source with one
   * of its own categories, the one choosing that source by hand selects too;
   * unless that category is empty, the page then asks for exactly that pair.
   */
  lemma DefaultSelectionListed(data: Sources, source: string, category: string, other: string)
    requires |data| > 0 && data[0].0 != "" && |data[0].1| > 0
    ensures var (s, c) := DefaultSelection(data, source, category);
      && CategoriesOf(data, s) == Some(data[0].1) && c in CategoriesOf(data, s).value
      && SourceChanged(data, s, other) == (s, c)
      && (c != "" ==> FeedsRequest(s, c) == Some((data[0].0, data[0].1[0])))
  {
  }

  /**
   * The category is not cleared when the new source has none of its own, so
   * the page then asks for the new source with the old source's category.
   */
  lemma StaleCategoryRequest(sources: Sources, source: string, category: string)
    requires source != "" && category != ""
    requires CategoriesOf(sources, source) == Some([])
    ensures var (s, c) := SourceChanged(sources, source, category);
      FeedsRequest(s, c) == Some((source, category))
  {
  }

  /** The page's state fields. */
  class FeedsPage {
    var sources: Sources
    var selectedSource: string
    var selectedCategory: string
    var feedsData: Option<FeedsResponse>
    var isLoadingSources: bool
    var isLoadingFeeds: bool
    var error: Option<FeedsError>

    constructor ()
      ensures sources == [] && selectedSource == "" && selectedCategory == "" && feedsData.None?
      ensures isLoadingSources && !isLoadingFeeds && error.None?
    {
      sources, selectedSource, selectedCategory, feedsData := [], "", "", None;
      isLoadingSources, isLoadingFeeds, error := true, false, None;
    }

    /** `loadSources()`, with what the fetch produced. */
    method LoadSources(response: Fetch<Sources>)
      modifies this
      ensures !isLoadingSources && feedsData == old(feedsData) && isLoadingFeeds == old(isLoadingFeeds)
      ensures response.FetchBody? ==>
        && sources == response.body && error.None?
        && (selectedSource, selectedCategory) == DefaultSelection(response.body, old(selectedSource), old(selectedCategory))
      ensures response.FetchHttpError? ==> error == Some(HttpStatus(response.status))
      ensures response.FetchUnreachable? ==> error == Some(Unreachable)
      ensures !response.FetchBody? ==>
        sources == old(sources) && selectedSource == old(selectedSource) && selectedCategory == old(selectedCategory)
    {
      isLoadingSources, error := true, None;
      match response {
        case FetchHttpError(status) =>
          error := Some(HttpStatus(status));
        case FetchUnreachable =>
          error := Some(Unreachable);
        case FetchBody(data) =>
          sources := data;
          if |data| > 0 && data[0].0 != "" && |data[0].1| > 0 {
            selectedSource, selectedCategory := data[0].0, data[0].1[0];
          }
      }
      isLoadingSources := false;
    }

    /** `loadFeeds(source, category)`, with what the fetch produced. */
    method LoadFeeds(response: Fetch<FeedsResponse>)
      modifies this
      ensures !isLoadingFeeds && sources == old(sources) && isLoadingSources == old(isLoadingSources)
      ensures selectedSource == old(selectedSource) && selectedCategory == old(selectedCategory)
      ensures response.FetchBody? ==> feedsData == Some(response.body) && error.None?
      ensures response.FetchHttpError? ==> feedsData == old(feedsData) && error == Some(HttpStatus(response.status))
      ensures response.FetchUnreachable? ==> feedsData == old(feedsData) && error == Some(Unreachable)
    {
      isLoadingFeeds, error := true, None;
      match response {
        case FetchHttpError(status) =>
          error := Some(HttpStatus(status));
        case FetchUnreachable =>
          error := Some(Unreachable);
        case FetchBody(data) =>
          feedsData := Some(data);
      }
      isLoadingFeeds := false;
    }

    /** `handleSourceChange(source)`. */
    method HandleSourceChange(source: string)
      modifies this
      ensures (selectedSource, selectedCategory) == SourceChanged(old(sources), source, old(selectedCategory))
      ensures sources == old(sources) && feedsData == old(feedsData) && error == old(error)
      ensures isLoadingSources == old(isLoadingSources) && isLoadingFeeds == old(isLoadingFeeds)
    {
      selectedSource := source;
      var categories := CategoriesOf(sources, source);
      if categories.Some? && |categories.value| > 0 {
        selectedCategory := categories.value[0];
      }
    }

    /** The selection effect and `handleRefresh`: the request they make, if any. */
    method Refresh() returns (request: Option<(string, string)>)
      ensures request == FeedsRequest(selectedSource, selectedCategory)
    {
      if selectedSource != "" && selectedCategory != "" {
        request := Some((selectedSource, selectedCategory));
      } else {
        request := None;
      }
    }
  }
}

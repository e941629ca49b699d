/** The history dialog's list filter and its relative-date labels. */
module HistoryView {
  import opened Wrappers
  import opened Seqs
  import opened JsValues
  import opened History

  const AllModalities := "all"
  const MinuteMs := 60000
  const HourMs := 3600000
  const DayMs := 86400000

  /** The filter predicate for the favourites toggle and the modality select. */
  predicate Keep(e: HistoryEntry, favoritesOnly: bool, modality: string) {
    (!favoritesOnly || e.favorite) && (modality == AllModalities || e.item.modality == modality)
  }

  /** `filteredHistory`. */
  function FilteredHistory(history: seq<HistoryEntry>, favoritesOnly: bool, modality: string): seq<HistoryEntry> {
    Filter(history, (e: HistoryEntry) => Keep(e, favoritesOnly, modality))
  }

  /** The shown entries are exactly the kept ones, in history order. */
  lemma FilteredMembers(history: seq<HistoryEntry>, favoritesOnly: bool, modality: string, e: HistoryEntry)
    ensures e in FilteredHistory(history, favoritesOnly, modality) <==> e in history && Keep(e, favoritesOnly, modality)
    ensures IsSublist(FilteredHistory(history, favoritesOnly, modality), history)
  {
    FilterMembers(history, (x: HistoryEntry) => Keep(x, favoritesOnly, modality), e);
    FilterIsSublist(history, (x: HistoryEntry) => Keep(x, favoritesOnly, modality));
  }

  /** With both filters off the whole history is shown. */
  lemma NoFilterShowsAll(history: seq<HistoryEntry>)
    ensures FilteredHistory(history, false, AllModalities) == history
  {
    FilterKeepsAll(history, (x: HistoryEntry) => Keep(x, false, AllModalities));
  }

  /** The favourites toggle alone shows the store's favourites view. */
  lemma FavoritesToggleIsFavorites(history: seq<HistoryEntry>)
    ensures FilteredHistory(history, true, AllModalities) == Favorites(history)
  {
    FilterExtensional(history, (x: HistoryEntry) => Keep(x, true, AllModalities), (x: HistoryEntry) => x.favorite);
  }

  /** The two filters, applied one after the other in either order, give the combined filter. */
  lemma FiltersCommute(history: seq<HistoryEntry>, modality: string)
    ensures FilteredHistory(FilteredHistory(history, true, AllModalities), false, modality)
         == FilteredHistory(history, true, modality)
    ensures FilteredHistory(FilteredHistory(history, false, modality), true, AllModalities)
         == FilteredHistory(history, true, modality)
  {
    var fav := (x: HistoryEntry) => Keep(x, true, AllModalities);
    var mod := (x: HistoryEntry) => Keep(x, false, modality);
    var both := (x: HistoryEntry) => Keep(x, true, modality);
    FilterFilter(history, fav, mod, both);
    FilterFilter(history, mod, fav, both);
  }

  // ---------------------------------------------------------------- dates

  /** The label `formatDate` picks for a difference of `diffMs` milliseconds. */
  datatype Age = JustNow | MinutesAgo(minutes: int) | HoursAgo(hours: int) | DaysAgo(days: int) | OnDate

  /**
   * `Math.floor(diffMs / unit)` for each unit, then the first bucket whose
   * bound holds. The buckets partition the integers by `diffMs` alone.
   */
  function Bucket(diffMs: int): (a: Age)
    ensures a.JustNow? <==> diffMs < MinuteMs
    ensures a.MinutesAgo? <==> MinuteMs <= diffMs < HourMs
    ensures a.HoursAgo? <==> HourMs <= diffMs < DayMs
    ensures a.DaysAgo? <==> DayMs <= diffMs < 7 * DayMs
    ensures a.OnDate? <==> 7 * DayMs <= diffMs
    ensures a.MinutesAgo? ==> MinuteMs * a.minutes <= diffMs < MinuteMs * (a.minutes + 1) && 1 <= a.minutes < 60
    ensures a.HoursAgo? ==> HourMs * a.hours <= diffMs < HourMs * (a.hours + 1) && 1 <= a.hours < 24
    ensures a.DaysAgo? ==> DayMs * a.days <= diffMs < DayMs * (a.days + 1) && 1 <= a.days < 7
  {
    // Dafny's `/` on a positive divisor rounds down, as `Math.floor` does.
    var diffMins := diffMs / MinuteMs;
    var diffHours := diffMs / HourMs;
    var diffDays := diffMs / DayMs;
    if diffMins < 1 then JustNow
    else if diffMins < 60 then MinutesAgo(diffMins)
    else if diffHours < 24 then HoursAgo(diffHours)
    else if diffDays < 7 then DaysAgo(diffDays)
    else OnDate
  }

  /** `formatDate`, with `localeDate` standing for `date.toLocaleDateString()`. */
  function FormatDate(diffMs: int, localeDate: string): string {
    match Bucket(diffMs)
    case JustNow => "Just now"
    case MinutesAgo(m) => IntToString(m) + "m ago"
    case HoursAgo(h) => IntToString(h) + "h ago"
    case DaysAgo(d) => IntToString(d) + "d ago"
    case OnDate => localeDate
  }

  /** A negative difference (a timestamp in the future) reads as "Just now". */
  lemma FutureIsJustNow(diffMs: int, localeDate: string)
    requires diffMs < 0
    ensures FormatDate(diffMs, localeDate) == "Just now"
  {
  }

  /** The number at the start of a relative label is the floor of the difference in its unit. */
  lemma LabelNumber(diffMs: int, localeDate: string)
    requires MinuteMs <= diffMs < 7 * DayMs
    ensures var unit := if diffMs < HourMs then MinuteMs else if diffMs < DayMs then HourMs else DayMs;
      ParseInt(FormatDate(diffMs, localeDate)) == Some(diffMs / unit)
  {
    match Bucket(diffMs)
    case MinutesAgo(m) => ParseIntPrefix(m, "m ago");
    case HoursAgo(h) => ParseIntPrefix(h, "h ago");
    case DaysAgo(d) => ParseIntPrefix(d, "d ago");
  }
}

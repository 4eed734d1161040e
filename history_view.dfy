/** The history screen (src/components/history/HistoryView.tsx): search and
    paging over the history list, loading a saved code back into the store,
    relative times, and the selection. */
module HistoryView {
  import opened Wrappers
  import opened Text
  import opened StyleStore
  import opened History
  import opened Lists
  import TemplatesView

  /** The page size the screen asks for. */
  const PageSize: int := 50

  /** The style a history item leaves in the store: like a template, except
      that `useGradient` and `gradient` are never taken. */
  function HistoryApplied(current: Style, doc: JsonDoc): Style {
    match doc
    case Unparsable => current
    case Parsed(j) =>
      current.(
        dotStyle := IfTruthy(current.dotStyle, j.dotStyle),
        cornerSquareStyle := IfTruthy(current.cornerSquareStyle, j.cornerSquareStyle),
        cornerDotStyle := IfTruthy(current.cornerDotStyle, j.cornerDotStyle),
        foreground := IfTruthy(current.foreground, j.foreground),
        background := IfTruthy(current.background, j.background),
        transparentBg := IfDefined(current.transparentBg, j.transparentBg),
        logo := IfPresent(current.logo, j.logo),
        errorCorrection := IfTruthy(current.errorCorrection, j.errorCorrection))
  }

  /** Loading from history is applying a template with the gradient settings
      left as they were. */
  lemma HistoryIsTemplateWithoutGradient(current: Style, doc: JsonDoc)
    ensures HistoryApplied(current, doc) ==
      TemplatesView.TemplateApplied(current, doc).(useGradient := current.useGradient, gradient := current.gradient)
  {
  }

  /** The relative time `formatTime` shows, for the milliseconds since the
      item was saved (`None` when the date does not parse, which makes every
      comparison false). */
  datatype Ago = JustNow | MinutesAgo(n: nat) | HoursAgo(n: nat) | DaysAgo(n: nat) | LocaleDate

  /** `Math.floor(diff / unit)` is Dafny's division, whose quotient rounds
      down for a positive divisor. */
  function Bucket(diff: Option<int>): Ago {
    match diff
    case None => LocaleDate
    case Some(d) =>
      var minutes := d / 60000;
      var hours := d / 3600000;
      var days := d / 86400000;
      if minutes < 1 then JustNow
      else if minutes < 60 then MinutesAgo(minutes)
      else if hours < 24 then HoursAgo(hours)
      else if days < 7 then DaysAgo(days)
      else LocaleDate
  }

  /** The buckets: under a minute (future times included) is "just now";
      then whole minutes 1..59, whole hours 1..23, whole days 1..6; anything
      older, or an unreadable date, shows the date itself. */
  lemma BucketRanges(diff: Option<int>)
    ensures Bucket(diff) == JustNow <==> diff.Some? && diff.value < 60000
    ensures Bucket(diff).MinutesAgo? <==> diff.Some? && 60000 <= diff.value < 3600000
    ensures Bucket(diff).HoursAgo? <==> diff.Some? && 3600000 <= diff.value < 86400000
    ensures Bucket(diff).DaysAgo? <==> diff.Some? && 86400000 <= diff.value < 7 * 86400000
    ensures Bucket(diff).MinutesAgo? ==> 1 <= Bucket(diff).n <= 59 && Bucket(diff).n == diff.value / 60000
    ensures Bucket(diff).HoursAgo? ==> 1 <= Bucket(diff).n <= 23 && Bucket(diff).n == diff.value / 3600000
    ensures Bucket(diff).DaysAgo? ==> 1 <= Bucket(diff).n <= 6 && Bucket(diff).n == diff.value / 86400000
  {
    if diff.Some? {
      var d := diff.value;
      assert d < 60000 <==> d / 60000 < 1;
      assert d < 3600000 <==> d / 60000 < 60;
      assert d < 86400000 <==> d / 3600000 < 24;
      assert d < 7 * 86400000 <==> d / 86400000 < 7;
      assert d >= 3600000 ==> d / 3600000 >= 1;
      assert d >= 86400000 ==> d / 86400000 >= 1;
    }
  }

  /** The text shown; `localeDate` is `date.toLocaleDateString()`. */
  function FormatTime(diff: Option<int>, localeDate: string): string {
    match Bucket(diff)
    case JustNow => "Just now"
    case MinutesAgo(n) => Decimal(n) + "m ago"
    case HoursAgo(n) => Decimal(n) + "h ago"
    case DaysAgo(n) => Decimal(n) + "d ago"
    case LocaleDate => localeDate
  }

  /** A relative time is its count in decimal followed by the unit, and the
      count reads back from the digits. */
  lemma FormatTimeCount(diff: Option<int>, localeDate: string)
    requires Bucket(diff).MinutesAgo? || Bucket(diff).HoursAgo? || Bucket(diff).DaysAgo?
    ensures var t := FormatTime(diff, localeDate);
      |t| > 5 && IsDigits(t[..|t| - 5]) && DigitsValue(t[..|t| - 5]) == Bucket(diff).n
    ensures var t := FormatTime(diff, localeDate);
      |t| > 5 && t[|t| - 5..] == (if Bucket(diff).MinutesAgo? then "m ago" else if Bucket(diff).HoursAgo? then "h ago" else "d ago")
  {
    var n := Bucket(diff).n;
    var t := FormatTime(diff, localeDate);
    DecimalRoundTrip(n);
    assert t[..|t| - 5] == Decimal(n);
  }

  /** `term || undefined`. */
  function Term(term: string): Option<string> {
    if term == "" then None else Some(term)
  }

  /** The screen's own state, with the hook and the store it works on. */
  class Screen {
    var searchTerm: string
    var selected: Option<HistoryItem>
    const hook: HistoryList
    const store: QrStore

    constructor(hook0: HistoryList, store0: QrStore)
      ensures hook == hook0 && store == store0 && searchTerm == "" && selected.None?
    {
      hook, store := hook0, store0;
      searchTerm, selected := "", None;
    }

    /** `handleSearch`: a search always starts again from the first page. */
    method Search(term: string, outcome: Invoke<ListResult>) returns (query: ListQuery)
      modifies hook, this`searchTerm
      ensures searchTerm == term
      ensures query == ListQuery(PageSize, 0, if term == "" then None else Some(term))
      ensures outcome.Returned? ==> hook.items == outcome.value.items
      ensures outcome.Threw? ==> hook.items == old(hook.items)
      ensures !hook.isLoading
    {
      searchTerm := term;
      query := hook.FetchHistory(PageSize, 0, Term(term), outcome);
    }

    /** `handleLoadMore`: the next page starts where the loaded list ends and
        keeps the current term; what arrives is appended. */
    method LoadMore(outcome: Invoke<ListResult>) returns (query: ListQuery)
      modifies hook
      ensures query == ListQuery(PageSize, |old(hook.items)|, if searchTerm == "" then None else Some(searchTerm))
      ensures outcome.Returned? ==> hook.items == old(hook.items) + outcome.value.items
      ensures outcome.Threw? ==> hook.items == old(hook.items)
      ensures !hook.isLoading
    {
      query := hook.FetchHistory(PageSize, |hook.items|, Term(searchTerm), outcome);
      if outcome.Returned? && |old(hook.items)| == 0 {
        assert old(hook.items) + outcome.value.items == outcome.value.items;
      }
    }

    /** `handleSelectItem`. */
    method SelectItem(item: HistoryItem)
      modifies this`selected
      ensures selected == Some(item)
    {
      selected := Some(item);
    }

    /** `handleLoadItem`: the content is set first, so it is loaded even when
        the style does not parse. */
    method LoadItem(item: HistoryItem)
      modifies store
      ensures store.content == item.content
      ensures store.style == HistoryApplied(old(store.style), item.styleJson)
    {
      store.content := item.content;
      match item.styleJson {
        case Unparsable =>
        case Parsed(j) =>
          var s := store.style;
          s := s.(dotStyle := IfTruthy(s.dotStyle, j.dotStyle));
          s := s.(cornerSquareStyle := IfTruthy(s.cornerSquareStyle, j.cornerSquareStyle));
          s := s.(cornerDotStyle := IfTruthy(s.cornerDotStyle, j.cornerDotStyle));
          s := s.(foreground := IfTruthy(s.foreground, j.foreground));
          s := s.(background := IfTruthy(s.background, j.background));
          s := s.(transparentBg := IfDefined(s.transparentBg, j.transparentBg));
          s := s.(logo := IfPresent(s.logo, j.logo));
          s := s.(errorCorrection := IfTruthy(s.errorCorrection, j.errorCorrection));
          store.style := s;
      }
    }

    /** `handleDelete`: the selection is cleared only when the deleted item
        was the selected one. */
    method Delete(id: int, outcome: Invoke<bool>)
      modifies hook`items, hook`total, this`selected
      ensures hook.items == if outcome == Returned(true) then Without(old(hook.items), id, ItemId) else old(hook.items)
      ensures hook.total == if outcome == Returned(true) then old(hook.total) - 1 else old(hook.total)
      ensures selected == if outcome == Returned(true) && old(selected).Some? && old(selected).value.id == id
                          then None else old(selected)
    {
      var success := hook.DeleteFromHistory(id, outcome);
      if success && selected.Some? && selected.value.id == id {
        selected := None;
      }
    }

    /** `handleClearAll`: after the user confirms, a successful clear also
        drops the selection. */
    method ClearAll(confirmed: bool, outcome: Invoke<int>)
      modifies hook`items, hook`total, hook`hasMore, this`selected
      ensures !confirmed ==> hook.items == old(hook.items) && selected == old(selected)
      ensures confirmed && outcome.Returned? ==> hook.items == [] && hook.total == 0 && selected.None?
      ensures confirmed && outcome.Threw? ==> hook.items == old(hook.items) && selected == old(selected)
    {
      if confirmed {
        var success := hook.ClearHistory(outcome);
        if success {
          selected := None;
        }
      }
    }
  }
}

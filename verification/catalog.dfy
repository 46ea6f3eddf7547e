/** The catalog page: the search and category filter of `renderList`, the package
    lookup of `selectPackage`, the compare tray of `toggleCompare` and `renderSummary`,
    and the guard of the mail button. DOM construction, event wiring and the `mailto:`
    link are not modelled; the page's global state becomes explicit arguments. */
module Catalog {
  import opened Wrappers
  import opened Text

  /** One entry of a package's `features` object. */
  datatype Feature = Feature(key: string, value: string)

  /** A catalog entry. `features` lists the object's entries in property order;
      `short` is `""` for an entry without one (the filter reads `p.short || ''`). */
  datatype Package = Package(
    id: string,
    name: string,
    category: string,
    price: string,
    short: string,
    features: seq<Feature>)

  /** The catalog the page ships with. */
  const SampleCatalog: seq<Package> := [
    Package("pkg-basic-1", "پکیج برنز", "basic", "68$",
      "مناسب برای تست و سرمایه گذاری های شخصی",
      [Feature("فضای_کاربر", "1"), Feature("پشتیبانی", "ایمیل (24 ساعت)"),
       Feature("کاربران", "حداکثر 2"), Feature("دامنه_سفارشی", "ندارد"),
       Feature("گزارشات", "محدود")]),
    Package("pkg-pro-1", "پکیج نقره ای", "pro", "112$",
      "مناسب استارتاپ‌ها و تیم‌های کوچک",
      [Feature("فضای_کاربر", "1"), Feature("پشتیبانی", "ایمیل (24/7)"),
       Feature("کاربران", "تا 5 کاربر"), Feature("دامنه_سفارشی", "ندارد"),
       Feature("گزارشات", "پیشرفته")]),
    Package("pkg-enterprise-1", "پکیج طلایی", "enterprise", "1050$",
      "سفارشی‌سازی برای سازمان ها",
      [Feature("فضای_کاربر", "1"), Feature("پشتیبانی", "ایمیل 24/7"),
       Feature("کاربران", "50"), Feature("دامنه_سفارشی", "ندارد"),
       Feature("گزارشات", "پیشرفته")]),
    Package("pkg-pro-2", "پکیج الماس", "pro", "10000$",
      "برای تیم‌های بزرگ",
      [Feature("فضای_کاربر", "1"), Feature("پشتیبانی", "چت و تماس اختصاصی"),
       Feature("کاربران", "تا 500 کاربر"), Feature("دامنه_سفارشی", "ندارد"),
       Feature("گزارشات", "پیشرفته + API")])
  ]

  /* ---------------------------------------------------------------- subsequences */

  /** `a` is obtained from `b` by deleting elements, keeping the order of the rest. */
  predicate IsSubsequence<T(==)>(a: seq<T>, b: seq<T>)
    decreases |b|
  {
    if |a| == 0 then true
    else if |b| == 0 then false
    else (a[0] == b[0] && IsSubsequence(a[1..], b[1..])) || IsSubsequence(a, b[1..])
  }

  /* ---------------------------------------------------------------- the filter */

  /** The search text as `renderList` normalises it: trimmed, then lower-cased. */
  function NormalizeQuery(raw: string): (q: string)
    ensures q == [] <==> forall k | 0 <= k < |raw| :: IsSpace(raw[k])
  {
    Lower(Trim(raw))
  }

  /** `Object.values(p.features)`. */
  function FeatureValues(p: Package): seq<string> {
    seq(|p.features|, i requires 0 <= i < |p.features| => p.features[i].value)
  }

  /** `Object.values(p.features).join(' ')`: the values only, never the keys. */
  function FeatureText(p: Package): string {
    Join(FeatureValues(p), ' ')
  }

  /** The category test: `'all'` admits every package. */
  predicate InCategory(p: Package, cat: string) {
    cat == "all" || p.category == cat
  }

  /** The text test: the empty query admits every package; otherwise the query must
      occur in the lower-cased name, short text or joined feature values. */
  predicate MatchesQuery(p: Package, q: string) {
    || q == ""
    || Includes(Lower(p.name), q)
    || Includes(Lower(p.short), q)
    || Includes(Lower(FeatureText(p)), q)
  }

  /** The predicate `packages.filter` applies. */
  predicate Shown(p: Package, q: string, cat: string) {
    InCategory(p, cat) && MatchesQuery(p, q)
  }

  /** Every package occurs in `r` as often as in `pkgs` when it passes the filter, and
      not at all otherwise. */
  ghost predicate KeepsCopies(r: seq<Package>, pkgs: seq<Package>, q: string, cat: string) {
    forall p {:trigger multiset(r)[p]} :: multiset(r)[p] == (if Shown(p, q, cat) then multiset(pkgs)[p] else 0)
  }

  /** `Array.prototype.filter` with `Shown`: the shown packages, in catalog order,
      each as many times as the catalog holds it. */
  function FilterShown(pkgs: seq<Package>, q: string, cat: string): (r: seq<Package>)
    ensures IsSubsequence(r, pkgs)
    ensures forall p | p in r :: p in pkgs && Shown(p, q, cat)
    ensures forall p | p in pkgs && Shown(p, q, cat) :: p in r
    ensures (forall p | p in pkgs :: Shown(p, q, cat)) ==> r == pkgs
    ensures KeepsCopies(r, pkgs, q, cat)
    decreases |pkgs|
  {
    if |pkgs| == 0 then []
    else
      assert pkgs == [pkgs[0]] + pkgs[1..];
      var rest := FilterShown(pkgs[1..], q, cat);
      assert forall p | p in pkgs[1..] :: p in pkgs;
      if Shown(pkgs[0], q, cat) then [pkgs[0]] + rest else rest
  }

  /** The list `renderList` shows for the raw search box text and the selected
      category. It keeps catalog order; a category other than `'all'` admits only
      packages of that category; every shown package appears as often as in the
      catalog; with `'all'` and a blank search box (empty after `trim`) it is the
      whole catalog. */
  function Visible(pkgs: seq<Package>, raw: string, cat: string): (r: seq<Package>)
    ensures IsSubsequence(r, pkgs)
    ensures cat != "all" ==> forall p | p in r :: p.category == cat
    ensures forall p | p in pkgs :: p in r <==> InCategory(p, cat) && MatchesQuery(p, NormalizeQuery(raw))
    ensures cat == "all" && (forall k | 0 <= k < |raw| :: IsSpace(raw[k])) ==> r == pkgs
    ensures KeepsCopies(r, pkgs, NormalizeQuery(raw), cat)
  {
    var q := NormalizeQuery(raw);
    BlankQueryShowsAll(pkgs);
    FilterShown(pkgs, q, cat)
  }

  /** With category `'all'` and the empty query every package is shown. */
  lemma BlankQueryShowsAll(pkgs: seq<Package>)
    ensures forall p | p in pkgs :: Shown(p, "", "all")
  {
  }

  /** On the shipped catalog, the `pro` category with an empty search box lists the
      two `pro` packages in catalog order. */
  lemma ProCategoryExample()
    ensures Visible(SampleCatalog, "", "pro") == [SampleCatalog[1], SampleCatalog[3]]
  {
    var c := SampleCatalog;
    assert FilterShown(c[3..], "", "pro") == [c[3]];
    assert FilterShown(c[2..], "", "pro") == [c[3]];
    assert FilterShown(c[1..], "", "pro") == [c[1], c[3]];
  }

  /** Filtering a filtered list again changes nothing. */
  lemma FilterIdempotent(pkgs: seq<Package>, q: string, cat: string)
    ensures FilterShown(FilterShown(pkgs, q, cat), q, cat) == FilterShown(pkgs, q, cat)
  {
  }

  /** A non-empty query matches exactly when it occurs, at some position, in the
      lower-cased name, short text or joined feature values. */
  lemma QueryMeaning(p: Package, q: string)
    requires q != ""
    ensures MatchesQuery(p, q) <==>
      || (exists i :: OccursAt(Lower(p.name), q, i))
      || (exists i :: OccursAt(Lower(p.short), q, i))
      || (exists i :: OccursAt(Lower(FeatureText(p)), q, i))
  {
    IncludesIff(Lower(p.name), q);
    IncludesIff(Lower(p.short), q);
    IncludesIff(Lower(FeatureText(p)), q);
  }

  /** A query found in one lower-cased feature value finds the package. */
  lemma ValueMatchFindsPackage(p: Package, q: string, k: nat)
    requires k < |p.features|
    requires Includes(Lower(p.features[k].value), q)
    ensures MatchesQuery(p, q)
  {
    var vals := FeatureValues(p);
    JoinContainsParts(vals, ' ', k);
    var i :| OccursAt(Join(vals, ' '), vals[k], i);
    LowerPreservesOccurrence(Join(vals, ' '), vals[k], i);
    IncludesIff(Lower(p.features[k].value), q);
    var j :| OccursAt(Lower(vals[k]), q, j);
    OccursWithin(Lower(FeatureText(p)), Lower(vals[k]), q, i, j);
    IncludesIff(Lower(FeatureText(p)), q);
  }

  /** Feature keys are not searched: renaming the keys of a package leaves the
      outcome of every query unchanged. */
  lemma KeysNotSearched(p: Package, keys: seq<string>, q: string)
    requires |keys| == |p.features|
    ensures var renamed := p.(features := seq(|keys|, i requires 0 <= i < |keys| => Feature(keys[i], p.features[i].value)));
      MatchesQuery(renamed, q) == MatchesQuery(p, q)
  {
    var renamed := p.(features := seq(|keys|, i requires 0 <= i < |keys| => Feature(keys[i], p.features[i].value)));
    assert FeatureValues(renamed) == FeatureValues(p);
  }

  /* ---------------------------------------------------------------- lookup and selection */

  /** Some package of `pkgs` has this id. */
  predicate Known(pkgs: seq<Package>, id: string) {
    exists p | p in pkgs :: p.id == id
  }

  /** The position `packages.find(x => x.id === id)` stops at: the first package
      with that id, or none. */
  function IndexOfId(pkgs: seq<Package>, id: string): (r: Option<nat>)
    ensures r.None? <==> forall k | 0 <= k < |pkgs| :: pkgs[k].id != id
    ensures r.Some? ==>
      && r.value < |pkgs| && pkgs[r.value].id == id
      && forall k | 0 <= k < r.value :: pkgs[k].id != id
    decreases |pkgs|
  {
    if |pkgs| == 0 then None
    else if pkgs[0].id == id then Some(0)
    else match IndexOfId(pkgs[1..], id)
      case None => None
      case Some(k) => Some(k + 1)
  }

  /** `packages.find(x => x.id === id)`. */
  function Find(pkgs: seq<Package>, id: string): (r: Option<Package>)
    ensures r.None? <==> !Known(pkgs, id)
    ensures r.Some? ==> r.value in pkgs && r.value.id == id
    ensures r.Some? ==> exists k :: IndexOfId(pkgs, id) == Some(k) && r.value == pkgs[k]
  {
    match IndexOfId(pkgs, id)
    case None => None
    case Some(k) => Some(pkgs[k])
  }

  /** `selectPackage`: an unknown id leaves the selection as it was; a known id
      selects the catalog's package with that id (the first, should ids repeat). */
  function Select(pkgs: seq<Package>, selected: Option<Package>, id: string): (r: Option<Package>)
    ensures !Known(pkgs, id) ==> r == selected
    ensures Known(pkgs, id) ==> r.Some? && r.value in pkgs && r.value.id == id
    ensures Known(pkgs, id) ==> exists k | 0 <= k < |pkgs| :: r.value == pkgs[k] && IndexOfId(pkgs, id) == Some(k)
  {
    match Find(pkgs, id)
    case None => selected
    case Some(p) => Some(p)
  }

  /* ---------------------------------------------------------------- the compare tray */

  /** No id occurs twice: the compare tray is a JavaScript `Set`, which keeps its
      members in insertion order. */
  predicate Distinct(s: seq<string>) {
    forall i, j | 0 <= i < j < |s| :: s[i] != s[j]
  }

  /** `Set.prototype.delete`: the others keep their order. */
  function Remove(s: seq<string>, x: string): (r: seq<string>)
    ensures x !in r
    ensures forall y | y != x :: y in r <==> y in s
    ensures IsSubsequence(r, s)
    ensures Distinct(s) ==> Distinct(r)
    ensures Distinct(s) && x in s ==> |r| == |s| - 1
    ensures x !in s ==> r == s
    decreases |s|
  {
    if |s| == 0 then []
    else if s[0] == x then
      var r := Remove(s[1..], x);
      assert Distinct(s) ==> x !in s[1..];
      r
    else
      var rest := Remove(s[1..], x);
      assert forall y | y in s[1..] :: y in s;
      assert Distinct(s) ==> s[0] !in s[1..];
      [s[0]] + rest
  }

  /** `toggleCompare`: delete the id when present, otherwise add it at the end. No
      other id changes membership, and the tray stays duplicate-free. */
  function Toggle(tray: seq<string>, id: string): (r: seq<string>)
    ensures id in r <==> id !in tray
    ensures forall x | x != id :: x in r <==> x in tray
    ensures Distinct(tray) ==> Distinct(r)
    ensures id !in tray ==> r == tray + [id]
    ensures id in tray ==> IsSubsequence(r, tray)
  {
    if id in tray then Remove(tray, id) else tray + [id]
  }

  /** Toggling twice restores the membership of every id. When the id was absent the
      tray is restored exactly; when it was present, it comes back at the end. */
  lemma ToggleTwice(tray: seq<string>, id: string)
    ensures forall x :: x in Toggle(Toggle(tray, id), id) <==> x in tray
    ensures id !in tray ==> Toggle(Toggle(tray, id), id) == tray
    ensures id in tray ==> Toggle(Toggle(tray, id), id) == Remove(tray, id) + [id]
  {
    if id !in tray {
      RemoveAppended(tray, id);
    }
  }

  /** Deleting the id that was just added restores the tray. */
  lemma {:induction false} RemoveAppended(s: seq<string>, x: string)
    requires x !in s
    ensures Remove(s + [x], x) == s
    decreases |s|
  {
    if |s| > 0 {
      assert (s + [x])[1..] == s[1..] + [x];
      RemoveAppended(s[1..], x);
    }
  }

  /* ---------------------------------------------------------------- the summary */

  const ComparePrompt: string := "برای مقایسه، حداقل دو پکیج را انتخاب کن."

  /** What `renderSummary` shows: the prompt for an empty tray, one card per tray id
      in tray order, or a `TypeError` when a tray id has no package (`find` yields
      `undefined` and `p.name` throws). */
  datatype Summary = Prompt(text: string) | Cards(cards: seq<Package>) | RenderFails

  /** `renderSummary`. */
  function Summarize(pkgs: seq<Package>, tray: seq<string>): (r: Summary)
    ensures r.Prompt? <==> |tray| == 0
    ensures r.Prompt? ==> r.text == ComparePrompt
    ensures r.RenderFails? <==> |tray| > 0 && exists i | 0 <= i < |tray| :: !Known(pkgs, tray[i])
    ensures r.Cards? ==>
      && |r.cards| == |tray|
      && forall i | 0 <= i < |tray| :: r.cards[i].id == tray[i] && r.cards[i] in pkgs
    ensures r.Cards? ==> forall i | 0 <= i < |tray| :: Some(r.cards[i]) == Find(pkgs, tray[i])
  {
    if |tray| == 0 then Prompt(ComparePrompt)
    else if forall i | 0 <= i < |tray| :: Find(pkgs, tray[i]).Some? then
      Cards(seq(|tray|, i requires 0 <= i < |tray| && Find(pkgs, tray[i]).Some? => Find(pkgs, tray[i]).value))
    else RenderFails
  }

  /** The page only ever toggles ids of catalog packages, so every id in the tray
      stays known and the summary never fails. */
  lemma ToggleKeepsTrayKnown(pkgs: seq<Package>, tray: seq<string>, id: string)
    requires forall x | x in tray :: Known(pkgs, x)
    requires Known(pkgs, id)
    ensures forall x | x in Toggle(tray, id) :: Known(pkgs, x)
    ensures !Summarize(pkgs, Toggle(tray, id)).RenderFails?
  {
  }

  /* ---------------------------------------------------------------- the mail button */

  const NoSelectionAlert: string := "لطفاً ابتدا یک پکیج انتخاب کنید."

  /** What a click on the mail button does: an alert and nothing else when no package
      is selected, otherwise a message about the selected package. */
  datatype MailAction = Alert(message: string) | Compose(about: Package)

  /** The click handler of the mail button. */
  function MailClick(selected: Option<Package>): (r: MailAction)
    ensures r.Alert? <==> selected.None?
    ensures r.Alert? ==> r.message == NoSelectionAlert
    ensures r.Compose? ==> r.about == selected.value
  {
    match selected
    case None => Alert(NoSelectionAlert)
    case Some(p) => Compose(p)
  }
}

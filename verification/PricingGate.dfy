/** The pricing runner: preview every URL, ingest only behind the gate. */
module PricingGate {
  import opened Basics

  /** One element of a batch's "urls". `Junk` is anything else, including an object without a URL;
      `approved` is the truthiness of the object's field. */
  datatype RawEntry = PlainUrl(url: string) | UrlObject(url: string, approved: bool) | Junk

  /** The "urls" field: missing or falsy, a list, or something that is not a list. */
  datatype Urls = NoUrls | UrlList(entries: seq<RawEntry>) | NotAList

  datatype Batch = Batch(category: string, urls: Urls)

  datatype Entry = Entry(url: string, approved: bool)

  datatype Preview = Preview(accepted: bool, currency: string, region: string, normalizedUrl: string)

  /** A call to the URL service with its answer. */
  datatype Effect =
    | Previewed(url: string, category: string, preview: Preview)
    | Ingested(url: string, category: string, status: string)

  /** The service may answer by everything that happened before; None means that the call raises. */
  datatype Service = Service(
    preview: (seq<Effect>, string, string) -> Option<Preview>,
    ingest: (seq<Effect>, string, string) -> Option<string>)

  datatype Run = Run(region: string, executePricing: bool, limit: Option<int>)

  // ---------- _url_entries ----------

  predicate IsEntry(e: RawEntry) {
    match e
    case PlainUrl(_) => true
    case UrlObject(url, _) => url != ""
    case Junk => false
  }

  function ToEntry(e: RawEntry): Entry
    requires IsEntry(e)
  {
    match e
    case PlainUrl(url) => Entry(url, false)
    case UrlObject(url, approved) => Entry(url, approved)
  }

  function Normalize(es: seq<RawEntry>): seq<Entry> {
    if es == [] then [] else (if IsEntry(es[0]) then [ToEntry(es[0])] else []) + Normalize(es[1..])
  }

  /** Python's `xs[:limit] if limit else xs`, negative limits included. */
  function Limited(xs: seq<Entry>, limit: Option<int>): seq<Entry> {
    if limit.None? || limit.value == 0 then xs
    else if limit.value < 0 then (if |xs| + limit.value < 0 then [] else xs[..|xs| + limit.value])
    else if limit.value < |xs| then xs[..limit.value] else xs
  }

  /** None stands for the ValueError. */
  function UrlEntries(b: Batch, limit: Option<int>): Option<seq<Entry>> {
    match b.urls
    case NoUrls => Some([])
    case NotAList => None
    case UrlList(entries) => Some(Limited(Normalize(entries), limit))
  }

  // ---------- the report ----------

  datatype Item = Item(url: string, accepted: bool, approved: bool, ingestStatus: string)

  datatype CategoryReport = CategoryReport(urlCount: nat, accepted: nat, rejected: nat, items: seq<Item>)

  datatype Report = Report(categories: seq<(string, CategoryReport)>, accepted: nat, rejected: nat, ingested: nat)

  /** What the report says of an entry whose turn made the calls `here`. */
  ghost predicate Tells(item: Item, r: Run, e: Entry, here: seq<Effect>) {
    && here != [] && here[0].Previewed?
    && var p := here[0].preview;
       && item.url == p.normalizedUrl
       && item.approved == e.approved
       && item.accepted == (p.accepted && p.currency == "SAR" && p.region == r.region)
       && item.ingestStatus == (if |here| > 1 && here[1].Ingested? then here[1].status
                                else if r.executePricing && !e.approved then "skipped_unapproved_url"
                                else "not_requested")
  }

  predicate GateAccepts(r: Run, p: Preview) {
    p.accepted && p.currency == "SAR" && p.region == r.region
  }

  // ---------- the effects of a run ----------

  /** Effects of one entry, given everything before, and whether a call raised. */
  function EntryEffects(s: Service, r: Run, category: string, past: seq<Effect>, e: Entry): (seq<Effect>, bool) {
    match s.preview(past, e.url, category)
    case None => ([], true)
    case Some(p) =>
      var first := [Previewed(e.url, category, p)];
      if r.executePricing && GateAccepts(r, p) && e.approved then
        match s.ingest(past + first, e.url, category)
        case None => (first, true)
        case Some(status) => (first + [Ingested(e.url, category, status)], false)
      else (first, false)
  }

  /** The effects of the first `n` entries, stopping at a raise. */
  function EntriesEffects(s: Service, r: Run, category: string, past: seq<Effect>, es: seq<Entry>,
                          n: nat): (seq<Effect>, bool)
    requires n <= |es|
  {
    if n == 0 then ([], false)
    else
      var (before, raised) := EntriesEffects(s, r, category, past, es, n - 1);
      if raised then (before, true)
      else
        var (here, raises) := EntryEffects(s, r, category, past + before, es[n - 1]);
        (before + here, raises)
  }

  /** The `k`-th report item tells of the `k`-th entry's turn. */
  ghost predicate ItemsTell(s: Service, r: Run, category: string, past: seq<Effect>, es: seq<Entry>, items: seq<Item>) {
    && |items| <= |es|
    && forall k :: 0 <= k < |items| ==> ItemTells(s, r, category, past, es, items, k)
  }

  ghost predicate ItemTells(
    s: Service, r: Run, category: string, past: seq<Effect>, es: seq<Entry>, items: seq<Item>, k: nat)
    requires k < |items| <= |es|
  {
    var before := EntriesEffects(s, r, category, past, es, k).0;
    Tells(items[k], r, es[k], EntryEffects(s, r, category, past + before, es[k]).0)
  }

  /** Everything the report says under a category, given the turns of its batch. */
  ghost predicate RowTells(s: Service, r: Run, category: string, past: seq<Effect>, es: seq<Entry>,
                           row: CategoryReport) {
    && |row.items| == |es| == row.urlCount
    && ItemsTell(s, r, category, past, es, row.items)
    && row.accepted == CountAccepted(row.items)
    && row.rejected == |es| - CountAccepted(row.items)
  }

  function CountAccepted(items: seq<Item>): (n: nat)
    ensures n <= |items|
  {
    if items == [] then 0 else CountAccepted(items[..|items| - 1]) + if items[|items| - 1].accepted then 1 else 0
  }

  lemma CountAcceptedSnoc(items: seq<Item>, item: Item)
    ensures CountAccepted(items + [item]) == CountAccepted(items) + if item.accepted then 1 else 0
  {
    assert (items + [item])[..|items|] == items;
  }

  lemma ItemsTellMore(
    s: Service, r: Run, category: string, past: seq<Effect>, es: seq<Entry>, items: seq<Item>, item: Item)
    requires ItemsTell(s, r, category, past, es, items) && |items| < |es|
    requires var before := EntriesEffects(s, r, category, past, es, |items|).0;
             Tells(item, r, es[|items|], EntryEffects(s, r, category, past + before, es[|items|]).0)
    ensures ItemsTell(s, r, category, past, es, items + [item])
  {
    forall k | 0 <= k < |items| ensures ItemTells(s, r, category, past, es, items + [item], k) {
      assert ItemTells(s, r, category, past, es, items, k);
    }
  }

  function BatchesEffects(s: Service, r: Run, bs: seq<Batch>, n: nat): (seq<Effect>, bool)
    requires n <= |bs|
  {
    if n == 0 then ([], false)
    else
      var (before, raised) := BatchesEffects(s, r, bs, n - 1);
      if raised then (before, true)
      else
        match UrlEntries(bs[n - 1], r.limit)
        case None => (before, true)
        case Some(es) =>
          var (here, raises) := EntriesEffects(s, r, bs[n - 1].category, before, es, |es|);
          (before + here, raises)
  }

  // ---------- the gate ----------

  /** One turn of the inner loop. */
  datatype Visit = Visit(category: string, entry: Entry)

  function Tag(category: string, es: seq<Entry>): seq<Visit> {
    seq(|es|, i requires 0 <= i < |es| => Visit(category, es[i]))
  }

  function EntriesOf(b: Batch, limit: Option<int>): seq<Entry> {
    var es := UrlEntries(b, limit);
    if es.Some? then es.value else []
  }

  /** The turns of the first `n` batches, in order. */
  function Visited(bs: seq<Batch>, limit: Option<int>, n: nat): seq<Visit>
    requires n <= |bs|
  {
    if n == 0 then [] else Visited(bs, limit, n - 1) + Tag(bs[n - 1].category, EntriesOf(bs[n - 1], limit))
  }

  function Previews(t: seq<Effect>): nat {
    if t == [] then 0 else Previews(t[..|t| - 1]) + if t[|t| - 1].Previewed? then 1 else 0
  }

  predicate GateOpens(r: Run, v: Visit, p: Preview) {
    r.executePricing && v.entry.approved && p.accepted && p.currency == "SAR" && p.region == r.region
  }

  /** The call at `i` belongs to its turn: the k-th preview is the k-th turn's, and an ingest comes
      directly after the preview of the same turn, whose gate opens. */
  ghost predicate InTurn(r: Run, t: seq<Effect>, vs: seq<Visit>, i: nat)
    requires i < |t|
  {
    var k := Previews(t[..i]);
    if t[i].Previewed? then k < |vs| && vs[k].entry.url == t[i].url && vs[k].category == t[i].category
    else && i > 0 && t[i - 1].Previewed? && 0 < k <= |vs|
         && vs[k - 1].entry.url == t[i].url && vs[k - 1].category == t[i].category
         && GateOpens(r, vs[k - 1], t[i - 1].preview)
  }

  /** After the preview at `i` comes an ingest exactly if the gate of its turn opens; a run that a
      raise has cut short owes nothing after its last call. */
  ghost predicate Decided(r: Run, t: seq<Effect>, vs: seq<Visit>, cut: bool, i: nat)
    requires i < |t|
  {
    var k := Previews(t[..i]);
    t[i].Previewed? && (i + 1 < |t| || !cut) ==>
      k < |vs| && (GateOpens(r, vs[k], t[i].preview) <==> i + 1 < |t| && t[i + 1].Ingested?)
  }

  /** The calls of the turns `vs`, each in its turn, and every turn previewed unless cut short. */
  ghost predicate Follows(r: Run, t: seq<Effect>, vs: seq<Visit>, cut: bool) {
    && (forall i :: 0 <= i < |t| ==> InTurn(r, t, vs, i) && Decided(r, t, vs, cut, i))
    && (!cut ==> Previews(t) == |vs|)
  }

  lemma {:induction false} PreviewsAppend(a: seq<Effect>, b: seq<Effect>)
    ensures Previews(a + b) == Previews(a) + Previews(b)
  {
    if b == [] {
      assert a + b == a;
    } else {
      assert (a + b)[..|a + b| - 1] == a + b[..|b| - 1];
      PreviewsAppend(a, b[..|b| - 1]);
    }
  }

  lemma FollowsIndex(r: Run, a: seq<Effect>, b: seq<Effect>, us: seq<Visit>, vs: seq<Visit>, cut: bool, i: nat)
    requires Follows(r, a, us, false) && Follows(r, b, vs, cut) && i < |a + b|
    ensures InTurn(r, a + b, us + vs, i) && Decided(r, a + b, us + vs, cut, i)
  {
    var t := a + b;
    if i < |a| {
      assert t[..i] == a[..i] && InTurn(r, a, us, i) && Decided(r, a, us, false, i);
      if i + 1 == |a| && b != [] { assert InTurn(r, b, vs, 0) && t[i + 1] == b[0]; }
    } else {
      var j := i - |a|;
      assert t[..i] == a + b[..j] && InTurn(r, b, vs, j) && Decided(r, b, vs, cut, j);
      PreviewsAppend(a, b[..j]);
      if j > 0 { assert t[i - 1] == b[j - 1]; }
      if j + 1 < |b| { assert t[i + 1] == b[j + 1]; }
    }
  }

  lemma FollowsAppend(r: Run, a: seq<Effect>, b: seq<Effect>, us: seq<Visit>, vs: seq<Visit>, cut: bool)
    requires Follows(r, a, us, false) && Follows(r, b, vs, cut)
    ensures Follows(r, a + b, us + vs, cut)
  {
    forall i | 0 <= i < |a + b| ensures InTurn(r, a + b, us + vs, i) && Decided(r, a + b, us + vs, cut, i) {
      FollowsIndex(r, a, b, us, vs, cut, i);
    }
    PreviewsAppend(a, b);
  }

  /** A run cut short stays one when more turns were planned. */
  lemma FollowsLonger(r: Run, t: seq<Effect>, vs: seq<Visit>, more: seq<Visit>, cut: bool)
    requires Follows(r, t, vs, cut)
    ensures Follows(r, t, vs + more, true)
  {
    forall i | 0 <= i < |t| ensures InTurn(r, t, vs + more, i) && Decided(r, t, vs + more, true, i) {
      assert InTurn(r, t, vs, i) && Decided(r, t, vs, cut, i);
    }
  }

  lemma PreviewAlone(r: Run, v: Visit, p: Preview, cut: bool)
    requires cut || !GateOpens(r, v, p)
    ensures Follows(r, [Previewed(v.entry.url, v.category, p)], [v], cut)
  {
    var t := [Previewed(v.entry.url, v.category, p)];
    PreviewsOf(t);
    assert InTurn(r, t, [v], 0) && Decided(r, t, [v], cut, 0);
  }

  lemma PreviewAndIngest(r: Run, v: Visit, p: Preview, status: string)
    requires GateOpens(r, v, p)
    ensures Follows(r, [Previewed(v.entry.url, v.category, p), Ingested(v.entry.url, v.category, status)], [v], false)
  {
    var a, b := Previewed(v.entry.url, v.category, p), Ingested(v.entry.url, v.category, status);
    var t := [a, b];
    PreviewsOf([a]);
    PreviewsOf(t);
    assert t[..1] == [a];
    assert InTurn(r, t, [v], 0) && Decided(r, t, [v], false, 0);
    assert InTurn(r, t, [v], 1) && Decided(r, t, [v], false, 1);
  }

  lemma PreviewsOf(t: seq<Effect>)
    requires t != []
    ensures Previews(t[..0]) == 0 && Previews(t) == Previews(t[..|t| - 1]) + if t[|t| - 1].Previewed? then 1 else 0
  {
  }

  lemma EntryFollows(s: Service, r: Run, category: string, past: seq<Effect>, e: Entry)
    ensures var (here, raises) := EntryEffects(s, r, category, past, e); Follows(r, here, [Visit(category, e)], raises)
  {
    var v := Visit(category, e);
    match s.preview(past, e.url, category) {
      case None =>
      case Some(p) =>
        var first := [Previewed(e.url, category, p)];
        var ingest := s.ingest(past + first, e.url, category);
        if GateOpens(r, v, p) && ingest.Some? {
          PreviewAndIngest(r, v, p, ingest.value);
          assert first + [Ingested(e.url, category, ingest.value)]
              == [Previewed(e.url, category, p), Ingested(e.url, category, ingest.value)];
        } else {
          PreviewAlone(r, v, p, GateOpens(r, v, p));
        }
    }
  }

  lemma {:induction false} EntriesFollow(s: Service, r: Run, category: string, past: seq<Effect>, es: seq<Entry>,
                                         n: nat)
    requires n <= |es|
    ensures var (t, raised) := EntriesEffects(s, r, category, past, es, n);
            Follows(r, t, Tag(category, es[..n]), raised)
  {
    if n > 0 {
      EntriesFollow(s, r, category, past, es, n - 1);
      var (before, raised) := EntriesEffects(s, r, category, past, es, n - 1);
      assert Tag(category, es[..n]) == Tag(category, es[..n - 1]) + [Visit(category, es[n - 1])];
      if raised {
        FollowsLonger(r, before, Tag(category, es[..n - 1]), [Visit(category, es[n - 1])], true);
      } else {
        var (here, raises) := EntryEffects(s, r, category, past + before, es[n - 1]);
        EntryFollows(s, r, category, past + before, es[n - 1]);
        FollowsAppend(r, before, here, Tag(category, es[..n - 1]), [Visit(category, es[n - 1])], raises);
      }
    }
  }

  lemma BatchFollows(s: Service, r: Run, category: string, past: seq<Effect>, es: seq<Entry>)
    ensures var (t, raised) := EntriesEffects(s, r, category, past, es, |es|); Follows(r, t, Tag(category, es), raised)
  {
    EntriesFollow(s, r, category, past, es, |es|);
    assert es[..|es|] == es;
  }

  /** The gate, on every run, also one that a raise cuts short: the k-th preview is of the k-th entry
      visited, and that entry is ingested, directly afterwards, exactly if pricing execution is on,
      the entry itself is approved, and the preview was accepted in SAR and the run's region. */
  lemma {:induction false} EveryIngestIsGated(s: Service, r: Run, bs: seq<Batch>, n: nat)
    requires n <= |bs|
    ensures var (t, raised) := BatchesEffects(s, r, bs, n); Follows(r, t, Visited(bs, r.limit, n), raised)
  {
    if n > 0 {
      EveryIngestIsGated(s, r, bs, n - 1);
      var (before, raised) := BatchesEffects(s, r, bs, n - 1);
      var us, es := Visited(bs, r.limit, n - 1), EntriesOf(bs[n - 1], r.limit);
      var vs := Tag(bs[n - 1].category, es);
      if raised || UrlEntries(bs[n - 1], r.limit).None? {
        FollowsLonger(r, before, us, vs, raised);
      } else {
        var (here, raises) := EntriesEffects(s, r, bs[n - 1].category, before, es, |es|);
        BatchFollows(s, r, bs[n - 1].category, before, es);
        FollowsAppend(r, before, here, us, vs, raises);
        assert BatchesEffects(s, r, bs, n) == (before + here, raises);
      }
    }
  }

  /** The raw element is a plain URL, which is never approved, or an object with a URL. */
  ghost predicate Reads(raw: RawEntry, e: Entry) {
    || (raw == PlainUrl(e.url) && !e.approved)
    || (raw == UrlObject(e.url, e.approved) && e.url != "")
  }

  ghost predicate Readable(raw: RawEntry) {
    raw.PlainUrl? || (raw.UrlObject? && raw.url != "")
  }

  /** The entries are the readable elements, in their order. */
  lemma {:induction false} NormalizesInOrder(es: seq<RawEntry>) returns (at: seq<nat>)
    ensures Filtered(es, Normalize(es), at, Reads, Readable)
  {
    at := [];
    if es != [] {
      var rest := NormalizesInOrder(es[1..]);
      at := Shifted(rest, Readable(es[0]));
      FilteredCons(es[0], es[1..], if IsEntry(es[0]) then [ToEntry(es[0])] else [], Normalize(es[1..]), rest, Reads,
                   Readable);
      assert [es[0]] + es[1..] == es;
    }
  }

  /** What a batch contributes: the readable elements in order, all of them without a limit, the first
      `limit` of them under a positive one, and all but the last `-limit` under a negative one. Only a
      field that is not a list raises. */
  lemma UrlEntriesMean(b: Batch, limit: Option<int>) returns (at: seq<nat>)
    ensures UrlEntries(b, limit) == None <==> b.urls == NotAList
    ensures b.urls == NoUrls ==> UrlEntries(b, limit) == Some([])
    ensures b.urls.UrlList? ==>
              var raw, es := b.urls.entries, UrlEntries(b, limit).value;
              && Increasing(at, |raw|)
              && (forall j: nat :: j < |raw| ==> (j in at <==> Readable(raw[j])))
              && |es| == (if limit == None || limit == Some(0) then |at|
                          else if limit.value > 0 then (if |at| < limit.value then |at| else limit.value)
                          else if |at| + limit.value > 0 then |at| + limit.value else 0)
              && forall i :: 0 <= i < |es| ==> Reads(raw[at[i]], es[i])
  {
    at := [];
    if b.urls.UrlList? { at := NormalizesInOrder(b.urls.entries); }
  }

  /** What is visited: a plain URL is never approved, an object is if its field says so, and anything
      else, an object without URL included, is skipped. */
  lemma {:induction false} NormalizeMeans(es: seq<RawEntry>, e: Entry)
    ensures e in Normalize(es)
            <==> (PlainUrl(e.url) in es && !e.approved) || (UrlObject(e.url, e.approved) in es && e.url != "")
  {
    if es != [] {
      NormalizeMeans(es[1..], e);
      assert es == [es[0]] + es[1..];
    }
  }

  /** Every ingest is immediately preceded by a preview of the same URL that the gate accepts. */
  ghost predicate Gated(r: Run, t: seq<Effect>) {
    forall i :: 0 <= i < |t| && t[i].Ingested? ==>
      && r.executePricing
      && i > 0 && t[i - 1].Previewed?
      && t[i - 1].url == t[i].url && t[i - 1].category == t[i].category
      && t[i - 1].preview.accepted && t[i - 1].preview.currency == "SAR" && t[i - 1].preview.region == r.region
  }

  lemma FollowsIsGated(r: Run, t: seq<Effect>, vs: seq<Visit>, cut: bool)
    requires Follows(r, t, vs, cut)
    ensures Gated(r, t)
  {
    forall i | 0 <= i < |t| && t[i].Ingested? ensures i > 0 && t[i - 1].Previewed? && t[i - 1].url == t[i].url
        && t[i - 1].category == t[i].category && r.executePricing && GateAccepts(r, t[i - 1].preview) {
      assert InTurn(r, t, vs, i) && InTurn(r, t, vs, i - 1);
      assert t[..i] == t[..i - 1] + [t[i - 1]];
      PreviewsAppend(t[..i - 1], [t[i - 1]]);
    }
  }

  ghost predicate NeverRaises(s: Service) {
    forall past, url, category :: s.preview(past, url, category).Some? && s.ingest(past, url, category).Some?
  }

  lemma {:induction false} HealthyEntriesFinish(
    s: Service, r: Run, category: string, past: seq<Effect>, es: seq<Entry>, n: nat)
    requires NeverRaises(s) && n <= |es|
    ensures !EntriesEffects(s, r, category, past, es, n).1
  {
    if n > 0 { HealthyEntriesFinish(s, r, category, past, es, n - 1); }
  }

  /** Only a service call or a field that is not a list cuts a run short. */
  lemma {:induction false} HealthyRunFinishes(s: Service, r: Run, bs: seq<Batch>, n: nat)
    requires n <= |bs| && NeverRaises(s) && forall i :: 0 <= i < n ==> bs[i].urls != NotAList
    ensures !BatchesEffects(s, r, bs, n).1
  {
    if n > 0 {
      HealthyRunFinishes(s, r, bs, n - 1);
      var es := EntriesOf(bs[n - 1], r.limit);
      HealthyEntriesFinish(s, r, bs[n - 1].category, BatchesEffects(s, r, bs, n - 1).0, es, |es|);
    }
  }

  // ---------- the counters, read off the trace ----------

  function CountPreviews(r: Run, t: seq<Effect>, accepted: bool): nat {
    if t == [] then 0
    else CountPreviews(r, t[..|t| - 1], accepted)
         + if t[|t| - 1].Previewed? && GateAccepts(r, t[|t| - 1].preview) == accepted then 1 else 0
  }

  function CountIngested(t: seq<Effect>): nat {
    if t == [] then 0
    else CountIngested(t[..|t| - 1]) + if t[|t| - 1].Ingested? && t[|t| - 1].status == "ingested" then 1 else 0
  }

  lemma PreviewSnoc(r: Run, t: seq<Effect>, e: Effect)
    ensures CountIngested(t + [e]) == CountIngested(t) + if e.Ingested? && e.status == "ingested" then 1 else 0
    ensures CountPreviews(r, t + [e], true)
            == CountPreviews(r, t, true) + if e.Previewed? && GateAccepts(r, e.preview) then 1 else 0
    ensures CountPreviews(r, t + [e], false)
            == CountPreviews(r, t, false) + if e.Previewed? && !GateAccepts(r, e.preview) then 1 else 0
  {
    assert (t + [e])[..|t|] == t;
  }

  /** No more rows are ingested than previews are accepted. */
  lemma {:induction false} IngestedAtMostAccepted(r: Run, t: seq<Effect>)
    requires Gated(r, t)
    ensures CountIngested(t) <= CountPreviews(r, t, true)
    ensures t != [] && t[|t| - 1].Previewed? && GateAccepts(r, t[|t| - 1].preview) ==>
        CountIngested(t) < CountPreviews(r, t, true)
  {
    if t != [] {
      var front := t[..|t| - 1];
      forall i | 0 <= i < |front| && front[i].Ingested?
          ensures front[i] == t[i] && (i > 0 ==> front[i - 1] == t[i - 1]) {}
      IngestedAtMostAccepted(r, front);
    }
  }

  lemma GatedRun(s: Service, r: Run, bs: seq<Batch>, t: seq<Effect>, raised: bool)
    requires BatchesEffects(s, r, bs, |bs|) == (t, raised)
    ensures Follows(r, t, Visited(bs, r.limit, |bs|), raised) && Gated(r, t)
    ensures CountIngested(t) <= CountPreviews(r, t, true)
    ensures |Visited(bs, r.limit, |bs|)| == TotalVisits(bs, r.limit, |bs|)
  {
    VisitedLength(bs, r.limit, |bs|);
    EveryIngestIsGated(s, r, bs, |bs|);
    FollowsIsGated(r, t, Visited(bs, r.limit, |bs|), raised);
    IngestedAtMostAccepted(r, t);
  }

  // ---------- the per-category table ----------

  /** Assigning a key of an insertion-ordered dictionary. */
  function SetCategory(cs: seq<(string, CategoryReport)>, k: string, v: CategoryReport): seq<(string, CategoryReport)> {
    if cs == [] then [(k, v)]
    else if cs[0].0 == k then [(k, v)] + cs[1..]
    else [cs[0]] + SetCategory(cs[1..], k, v)
  }

  function UrlCountOf(cs: seq<(string, CategoryReport)>, k: string): nat {
    if cs == [] then 0 else if cs[0].0 == k then cs[0].1.urlCount else UrlCountOf(cs[1..], k)
  }

  function SumUrlCounts(cs: seq<(string, CategoryReport)>): nat {
    if cs == [] then 0 else cs[0].1.urlCount + SumUrlCounts(cs[1..])
  }

  lemma {:induction false} SetCategoryFacts(cs: seq<(string, CategoryReport)>, k: string, v: CategoryReport,
                                            other: string)
    ensures UrlCountOf(SetCategory(cs, k, v), other) == if other == k then v.urlCount else UrlCountOf(cs, other)
    ensures SumUrlCounts(SetCategory(cs, k, v)) + UrlCountOf(cs, k) == SumUrlCounts(cs) + v.urlCount
  {
    if cs != [] && cs[0].0 != k {
      SetCategoryFacts(cs[1..], k, v, other);
    }
  }

  /** How many entries a batch contributes when nothing raises. */
  function Visits(b: Batch, limit: Option<int>): nat {
    |EntriesOf(b, limit)|
  }

  function TotalVisits(bs: seq<Batch>, limit: Option<int>, n: nat): nat
    requires n <= |bs|
  {
    if n == 0 then 0 else TotalVisits(bs, limit, n - 1) + Visits(bs[n - 1], limit)
  }

  lemma {:induction false} VisitedLength(bs: seq<Batch>, limit: Option<int>, n: nat)
    requires n <= |bs|
    ensures |Visited(bs, limit, n)| == TotalVisits(bs, limit, n)
  {
    if n > 0 { VisitedLength(bs, limit, n - 1); }
  }

  /** The visits of the last of the first `n` batches with this category. */
  function LastVisits(bs: seq<Batch>, limit: Option<int>, n: nat, k: string): nat
    requires n <= |bs|
  {
    if n == 0 then 0 else if bs[n - 1].category == k then Visits(bs[n - 1], limit) else LastVisits(bs, limit, n - 1, k)
  }

  /** The table after the first `n` batches: every category shows its latest batch only. */
  ghost predicate TableShowsLatest(cs: seq<(string, CategoryReport)>, bs: seq<Batch>, limit: Option<int>, n: nat)
    requires n <= |bs|
  {
    && (forall k :: UrlCountOf(cs, k) == LastVisits(bs, limit, n, k))
    && SumUrlCounts(cs) + Overwritten(bs, limit, n) == TotalVisits(bs, limit, n)
  }

  /** Visits of batches whose row was overwritten by a later batch of the same category. */
  function Overwritten(bs: seq<Batch>, limit: Option<int>, n: nat): nat
    requires n <= |bs|
  {
    if n == 0 then 0 else Overwritten(bs, limit, n - 1) + LastVisits(bs, limit, n - 1, bs[n - 1].category)
  }

  lemma {:induction false} LastVisitsMeans(bs: seq<Batch>, limit: Option<int>, n: nat, k: string)
    requires n <= |bs|
    requires forall i, j :: 0 <= i < j < n && bs[i].category == bs[j].category ==> Visits(bs[i], limit) == 0
    ensures LastVisits(bs, limit, n, k) == 0
            <==> forall i :: 0 <= i < n && bs[i].category == k ==> Visits(bs[i], limit) == 0
  {
    if n > 0 { LastVisitsMeans(bs, limit, n - 1, k); }
  }

  /** The per-category counts add up to the run's totals exactly when no batch with entries is
      followed by another batch of its category: a repeated category overwrites its own report row. */
  lemma {:induction false} TableAddsUpIff(bs: seq<Batch>, limit: Option<int>, n: nat)
    requires n <= |bs|
    ensures Overwritten(bs, limit, n) == 0
            <==> forall i, j :: 0 <= i < j < n && bs[i].category == bs[j].category ==> Visits(bs[i], limit) == 0
  {
    if n > 0 {
      TableAddsUpIff(bs, limit, n - 1);
      if Overwritten(bs, limit, n - 1) == 0 {
        LastVisitsMeans(bs, limit, n - 1, bs[n - 1].category);
      }
    }
  }

  class PricingRunner {
    const service: Service
    const run: Run
    var report: Report
    var trace: seq<Effect>  // the calls made to the service, with their answers

    constructor (service: Service, run: Run)
      ensures this.service == service && this.run == run
      ensures report == Report([], 0, 0, 0) && trace == []
    {
      this.service, this.run := service, run;
      report := Report([], 0, 0, 0);
      trace := [];
    }

    /** The counters are what the trace says. */
    ghost predicate Counts()
      reads this
    {
      && report.accepted == CountPreviews(run, trace, true)
      && report.rejected == CountPreviews(run, trace, false)
      && report.ingested == CountIngested(trace)
    }

    /** Preview one URL and count the verdict; None when the call raises. */
    method PreviewUrl(category: string, url: string) returns (preview: Option<Preview>)
      requires Counts()
      modifies this
      ensures Counts() && report.categories == old(report.categories)
      ensures preview == service.preview(old(trace), url, category)
      ensures trace == old(trace) + if preview.Some? then [Previewed(url, category, preview.value)] else []
      ensures preview.Some? ==>
                && report.accepted == old(report.accepted) + (if GateAccepts(run, preview.value) then 1 else 0)
                && report.rejected == old(report.rejected) + (if GateAccepts(run, preview.value) then 0 else 1)
    {
      preview := service.preview(trace, url, category);
      if preview.None? { return; }
      PreviewSnoc(run, trace, Previewed(url, category, preview.value));
      trace := trace + [Previewed(url, category, preview.value)];
      if GateAccepts(run, preview.value) {
        report := report.(accepted := report.accepted + 1);
      } else {
        report := report.(rejected := report.rejected + 1);
      }
    }

    /** Ingest one URL and count it if it went in; None when the call raises. */
    method IngestUrl(category: string, url: string) returns (status: Option<string>)
      requires Counts()
      modifies this
      ensures Counts() && report.categories == old(report.categories)
      ensures status == service.ingest(old(trace), url, category)
      ensures trace == old(trace) + if status.Some? then [Ingested(url, category, status.value)] else []
      ensures report.accepted == old(report.accepted) && report.rejected == old(report.rejected)
    {
      status := service.ingest(trace, url, category);
      if status.None? { return; }
      PreviewSnoc(run, trace, Ingested(url, category, status.value));
      trace := trace + [Ingested(url, category, status.value)];
      if status.value == "ingested" {
        report := report.(ingested := report.ingested + 1);
      }
    }

    /** The body of the inner loop; None when a service call raises. */
    method VisitEntry(category: string, entry: Entry) returns (item: Option<Item>)
      requires Counts()
      modifies this
      ensures Counts() && report.categories == old(report.categories)
      ensures var (here, raises) := EntryEffects(service, run, category, old(trace), entry);
              trace == old(trace) + here && item.None? == raises && (item.Some? ==> Tells(item.value, run, entry, here))
      ensures item.Some? ==>
                && report.accepted == old(report.accepted) + (if item.value.accepted then 1 else 0)
                && report.rejected == old(report.rejected) + (if item.value.accepted then 0 else 1)
    {
      var preview := PreviewUrl(category, entry.url);
      if preview.None? { return None; }
      var accepted := GateAccepts(run, preview.value);
      var status := "not_requested";
      if run.executePricing && accepted && entry.approved {
        var ingest := IngestUrl(category, entry.url);
        if ingest.None? { return None; }
        status := ingest.value;
      } else if run.executePricing && !entry.approved {
        status := "skipped_unapproved_url";
      }
      return Some(Item(preview.value.normalizedUrl, accepted, entry.approved, status));
    }

    /** The inner loop: the category row, or None when a service call raises. */
    method VisitEntries(category: string, es: seq<Entry>) returns (row: Option<CategoryReport>)
      requires Counts()
      modifies this
      ensures Counts() && report.categories == old(report.categories)
      ensures var (here, raises) := EntriesEffects(service, run, category, old(trace), es, |es|);
              trace == old(trace) + here && row.None? == raises
      ensures row.Some? ==>
                && row.value.urlCount == |es| == row.value.accepted + row.value.rejected
                && report.accepted == old(report.accepted) + row.value.accepted
                && report.rejected == old(report.rejected) + row.value.rejected
                && RowTells(service, run, category, old(trace), es, row.value)
    {
      var items: seq<Item> := [];
      var accepted, rejected := 0, 0;
      ghost var past, done: seq<Effect> := trace, [];
      for n := 0 to |es|
        invariant Counts() && report.categories == old(report.categories)
        invariant trace == past + done && EntriesEffects(service, run, category, past, es, n) == (done, false)
        invariant |items| == n == accepted + rejected && accepted == CountAccepted(items)
        invariant ItemsTell(service, run, category, past, es, items)
        invariant report.accepted == old(report.accepted) + accepted
            && report.rejected == old(report.rejected) + rejected
      {
        var item := VisitEntry(category, es[n]);
        done := EntriesStep(service, run, category, past, es, n, done);
        if item.None? { return None; }
        ItemsTellMore(service, run, category, past, es, items, item.value);
        CountAcceptedSnoc(items, item.value);
        items := items + [item.value];
        if item.value.accepted { accepted := accepted + 1; } else { rejected := rejected + 1; }
      }
      return Some(CategoryReport(|items|, accepted, rejected, items));
    }

    /** The body of the outer loop; false when something raises. */
    method VisitBatch(b: Batch) returns (ok: bool)
      requires Counts()
      modifies this
      ensures Counts()
      ensures UrlEntries(b, run.limit).None? ==> !ok && trace == old(trace) && report == old(report)
      ensures UrlEntries(b, run.limit).Some? ==>
                var es := UrlEntries(b, run.limit).value;
                var (here, raises) := EntriesEffects(service, run, b.category, old(trace), es, |es|);
                trace == old(trace) + here && ok == !raises
      ensures ok ==> report.accepted + report.rejected == old(report.accepted + report.rejected) + Visits(b, run.limit)
      ensures ok ==> exists row: CategoryReport ::
                && report.categories == SetCategory(old(report.categories), b.category, row)
                && row.urlCount == Visits(b, run.limit)
                && RowTells(service, run, b.category, old(trace), EntriesOf(b, run.limit), row)
      ensures !ok ==> report.categories == old(report.categories)
    {
      var entries := UrlEntries(b, run.limit);
      if entries.None? { return false; }
      var row := VisitEntries(b.category, entries.value);
      if row.None? { return false; }
      report := report.(categories := SetCategory(report.categories, b.category, row.value));
      return true;
    }

    /** `_preview_and_maybe_ingest_urls` on a new runner. */
    method PreviewAndMaybeIngest(bs: seq<Batch>) returns (ok: bool)
      requires report == Report([], 0, 0, 0) && trace == []
      modifies this
      ensures (trace, !ok) == BatchesEffects(service, run, bs, |bs|)
      ensures Follows(run, trace, Visited(bs, run.limit, |bs|), !ok) && Gated(run, trace)
      ensures Counts() && report.ingested <= report.accepted
      ensures ok ==> report.accepted + report.rejected == TotalVisits(bs, run.limit, |bs|)
      ensures ok ==> TableShowsLatest(report.categories, bs, run.limit, |bs|)
      ensures ok ==> (SumUrlCounts(report.categories) == report.accepted + report.rejected
                      <==> forall i, j :: 0 <= i < j < |bs| && bs[i].category == bs[j].category ==>
                          Visits(bs[i], run.limit) == 0)
    {
      TableAddsUpIff(bs, run.limit, |bs|);
      for n := 0 to |bs|
        invariant Counts()
        invariant BatchesEffects(service, run, bs, n) == (trace, false)
        invariant report.accepted + report.rejected == TotalVisits(bs, run.limit, n)
        invariant TableShowsLatest(report.categories, bs, run.limit, n)
      {
        ghost var table := report.categories;
        ok := VisitBatch(bs[n]);
        if !ok {
          assert BatchesEffects(service, run, bs, n + 1) == (trace, true);
          RaiseStopsBatches(service, run, bs, n + 1, |bs|);
          GatedRun(service, run, bs, trace, true);
          return;
        }
        TableStep(table, report.categories, bs, run.limit, n);
      }
      GatedRun(service, run, bs, trace, false);
      return true;
    }
  }

  lemma TableStep(cs: seq<(string, CategoryReport)>, ds: seq<(string, CategoryReport)>, bs: seq<Batch>,
                  limit: Option<int>, n: nat)
    requires n < |bs| && TableShowsLatest(cs, bs, limit, n)
    requires exists row: CategoryReport ::
               ds == SetCategory(cs, bs[n].category, row) && row.urlCount == Visits(bs[n], limit)
    ensures TableShowsLatest(ds, bs, limit, n + 1)
  {
    var row: CategoryReport :| ds == SetCategory(cs, bs[n].category, row) && row.urlCount == Visits(bs[n], limit);
    forall k ensures UrlCountOf(ds, k) == LastVisits(bs, limit, n + 1, k) {
      SetCategoryFacts(cs, bs[n].category, row, k);
    }
    SetCategoryFacts(cs, bs[n].category, row, "");
  }

  lemma {:induction false} RaiseStops(s: Service, r: Run, category: string, past: seq<Effect>, es: seq<Entry>,
                                      n: nat, m: nat)
    requires n <= m <= |es| && EntriesEffects(s, r, category, past, es, n).1
    ensures EntriesEffects(s, r, category, past, es, m) == EntriesEffects(s, r, category, past, es, n)
    decreases m
  {
    if n < m { RaiseStops(s, r, category, past, es, n, m - 1); }
  }

  /** One turn of the inner loop, and what it means for the whole loop if it raises. */
  lemma EntriesStep(s: Service, r: Run, category: string, past: seq<Effect>, es: seq<Entry>, n: nat, done: seq<Effect>)
    returns (next: seq<Effect>)
    requires n < |es| && EntriesEffects(s, r, category, past, es, n) == (done, false)
    ensures var (here, raises) := EntryEffects(s, r, category, past + done, es[n]);
            && past + done + here == past + next
            && EntriesEffects(s, r, category, past, es, n + 1) == (next, raises)
            && (raises ==> EntriesEffects(s, r, category, past, es, |es|) == (next, true))
  {
    var (here, raises) := EntryEffects(s, r, category, past + done, es[n]);
    next := done + here;
    assert past + done + here == past + (done + here);
    if raises { RaiseStops(s, r, category, past, es, n + 1, |es|); }
  }

  lemma {:induction false} RaiseStopsBatches(s: Service, r: Run, bs: seq<Batch>, n: nat, m: nat)
    requires n <= m <= |bs| && BatchesEffects(s, r, bs, n).1
    ensures BatchesEffects(s, r, bs, m) == BatchesEffects(s, r, bs, n)
    decreases m
  {
    if n < m { RaiseStopsBatches(s, r, bs, n, m - 1); }
  }
}

/** The `/dashboard-charts` routes (backend/src/routes/dashboardCharts.js)
    over an in-memory DashboardChart collection: the chart-type whitelist,
    feature normalisation, the defaults of a new chart, the partial update
    and the 404s. */
module DashboardCharts {
  import opened Common
  import opened Strings
  import opened JsValues
  import opened Sorting
  import opened NamedDocs

  /** `VALID_CHART_TYPES`, which the schema's `enum` repeats. */
  const ChartTypes: seq<string> := [
    "line", "bar", "pie", "area", "step_line", "spline", "sparkline",
    "simple_bar", "grouped_bar", "stacked_bar", "donut", "treemap",
    "histogram", "box_plot", "scatter_plot", "heatmap", "calendar_heatmap",
    "waterfall", "spider"]

  const ChartNameRequired: string := "Chart name is required."
  const ChartTypeInvalid: string := "chart_type must be one of: " + Join(ChartTypes, ", ") + "."
  const ChartNotFound: string := "Chart not found."

  /** A stored DashboardChart document (backend/src/models/DashboardChart.js). */
  datatype Chart = Chart(
    id: ObjectId,
    name: string,
    chartType: string,
    features: seq<string>,
    visible: bool,
    order: real,
    createdAt: int)

  /** The collection and the next `_id` it hands out. */
  datatype Charts = Charts(docs: seq<Chart>, nextId: ObjectId)

  /** A stored feature list: every entry non-empty and trimmed. */
  predicate CleanFeatures(fs: seq<string>)
  {
    forall k :: 0 <= k < |fs| ==> fs[k] != [] && IsTrimmed(fs[k])
  }

  /** What every stored chart satisfies: a listed type and clean features. */
  predicate WellFormed(c: Chart)
  {
    c.chartType in ChartTypes && CleanFeatures(c.features)
  }

  /** Between requests: ids are distinct and below the next id, and every
      chart is well formed. */
  ghost predicate ValidCharts(s: Charts)
  {
    (forall i :: 0 <= i < |s.docs| ==> s.docs[i].id < s.nextId) &&
    (forall i, j :: 0 <= i < j < |s.docs| ==> s.docs[i].id != s.docs[j].id) &&
    (forall i :: 0 <= i < |s.docs| ==> WellFormed(s.docs[i]))
  }

  /** Position of the chart with `_id == id`, or `|docs|`. */
  function FindChart(docs: seq<Chart>, id: ObjectId): (i: nat)
    ensures i <= |docs|
    ensures i < |docs| ==> docs[i].id == id
    ensures forall j :: 0 <= j < i ==> docs[j].id != id
  {
    FindFirst(docs, (c: Chart) => c.id, id)
  }

  // ---------------------------------------------------------------------
  // Normalising the body
  // ---------------------------------------------------------------------

  /** `String(f).trim()` for one element. */
  function FeatureText(v: JsValue): (r: string)
    ensures IsTrimmed(r)
    ensures v.Str? && IsTrimmed(v.s) ==> r == v.s
  {
    TrimIsTrimmed(ToString(v));
    assert v.Str? && IsTrimmed(v.s) ==> Trim(v.s) == v.s by {
      if v.Str? && IsTrimmed(v.s) { TrimOfTrimmed(v.s); }
    }
    Trim(ToString(v))
  }

  /** `items.map((f) => String(f).trim())`. */
  function FeatureTexts(items: seq<JsValue>): (r: seq<string>)
    ensures |r| == |items| && forall k :: 0 <= k < |items| ==> r[k] == FeatureText(items[k])
    ensures forall k :: 0 <= k < |r| ==> IsTrimmed(r[k])
    ensures forall k :: 0 <= k < |r| && items[k].Str? && IsTrimmed(items[k].s) ==> r[k] == items[k].s
  {
    seq(|items|, k requires 0 <= k < |items| => FeatureText(items[k]))
  }

  /** `Boolean(t)` for a string. */
  predicate NonBlank(t: string)
  {
    t != []
  }

  /** Dropping the empty strings from trimmed ones leaves a clean list. */
  lemma FilterClean(ts: seq<string>)
    requires forall k :: 0 <= k < |ts| ==> IsTrimmed(ts[k])
    ensures CleanFeatures(Filter(ts, NonBlank))
  {
    var r := Filter(ts, NonBlank);
    forall k | 0 <= k < |r| ensures r[k] != [] && IsTrimmed(r[k]) {
      assert r[k] in r;
    }
  }

  /** The features of a body: for an array, the trimmed text of each
      element with the empty ones dropped (`.filter(Boolean)`), in order;
      `[]` for anything else. */
  function Features(v: JsValue): (r: seq<string>)
    ensures !v.Arr? ==> r == []
    ensures v.Arr? ==> r == Filter(FeatureTexts(v.items), NonBlank)
    ensures CleanFeatures(r)
  {
    if v.Arr? then
      var ts := FeatureTexts(v.items);
      FilterClean(ts);
      Filter(ts, NonBlank)
    else []
  }

  /** A clean feature list, sent back as an array of strings, normalises to
      itself: stored features survive a PUT that repeats them. */
  lemma FeaturesRoundTrip(fs: seq<string>)
    requires CleanFeatures(fs)
    ensures Features(Arr(seq(|fs|, k requires 0 <= k < |fs| => Str(fs[k])))) == fs
  {
    var items := seq(|fs|, k requires 0 <= k < |fs| => Str(fs[k]));
    assert FeatureTexts(items) == fs;
    FilterKeepsAll(fs, NonBlank);
  }

  /** POST's `(chart_type || "").toLowerCase()`: "" for a falsy value, the
      lower-cased string for a string, and a TypeError otherwise. */
  function PostChartType(v: JsValue): (r: Response<string>)
    ensures r.Ok? || r.InternalError?
    ensures r.InternalError? <==> Truthy(v) && !v.Str?
    ensures v.Str? ==> r == Ok(Lower(v.s))
  {
    if !Truthy(v) then Ok([])
    else if v.Str? then Ok(Lower(v.s))
    else InternalError
  }

  /** A listed chart type keeps its spelling when lower-cased, so a type
      accepted once, sent again in any case, is accepted again and stored
      the same. */
  lemma ChartTypeResent(t: string)
    requires Lower(t) in ChartTypes
    ensures Lower(Lower(t)) in ChartTypes && Lower(Lower(t)) == Lower(t)
  {
    LowerIdempotent(t);
  }

  /** What POST takes from the body. */
  datatype ChartInput = ChartInput(
    name: Response<string>,
    chartType: Response<string>,
    features: seq<string>,
    visible: bool,
    order: real)

  /** The values POST computes before it creates the chart: the trimmed
      name, the lower-cased type, the normalised features, `visible` true
      unless exactly `false`, and `order` the number given or 0. */
  function PostInput(body: JsValue): (r: ChartInput)
    ensures r.name == GuardName(Get(body, "name"))
    ensures r.chartType == PostChartType(Get(body, "chart_type"))
    ensures r.features == Features(Get(body, "features")) && CleanFeatures(r.features)
    ensures r.visible <==> Get(body, "visible") != Bool(false)
    ensures Get(body, "order").Num? ==> r.order == Get(body, "order").x
    ensures !Get(body, "order").Num? ==> r.order == 0.0
  {
    var order := Get(body, "order");
    ChartInput(GuardName(Get(body, "name")), PostChartType(Get(body, "chart_type")),
               Features(Get(body, "features")), Get(body, "visible") != Bool(false),
               if order.Num? then order.x else 0.0)
  }

  // ---------------------------------------------------------------------
  // POST /dashboard-charts
  // ---------------------------------------------------------------------

  /** POST /dashboard-charts as a function of the collection. */
  function CreateChartSpec(s: Charts, body: JsValue, now: int): (Response<Chart>, Charts)
  {
    CreateChartWith(s, PostInput(body), now)
  }

  /** POST once the body is normalised: the name guard, then the type
      whitelist, then `create`, whose validators the normalised values
      already satisfy. */
  function CreateChartWith(s: Charts, input: ChartInput, now: int): (Response<Chart>, Charts)
  {
    if !input.name.Ok? then (InternalError, s)
    else if input.name.value == [] then (BadRequest(ChartNameRequired), s)
    else if !input.chartType.Ok? then (InternalError, s)
    else if input.chartType.value !in ChartTypes then (BadRequest(ChartTypeInvalid), s)
    else
      var c := Chart(s.nextId, input.name.value, input.chartType.value, input.features,
                     input.visible, input.order, now);
      (Ok(c), Charts(s.docs + [c], s.nextId + 1))
  }

  /** What POST answers: 400 for an empty name, then 400 for a type that is
      not listed; otherwise exactly one chart is appended under a fresh id,
      holding the normalised values. Failures change nothing. */
  lemma CreateChartOutcome(s: Charts, input: ChartInput, now: int, out: (Response<Chart>, Charts))
    requires ValidCharts(s) && CleanFeatures(input.features) && out == CreateChartWith(s, input, now)
    ensures out.0.Ok? || out.0.BadRequest? || out.0.InternalError?
    ensures out.0.BadRequest? <==> (input.name == Ok([]) ||
                                    (input.name.Ok? && input.name.value != [] &&
                                     input.chartType.Ok? && input.chartType.value !in ChartTypes))
    ensures out.0.BadRequest? ==> (out.0.error == ChartNameRequired <==> input.name == Ok([]))
    ensures !out.0.Ok? ==> out.1 == s
    ensures out.0.Ok? ==> (input.name.Ok? && input.name.value != [] && input.chartType.Ok? &&
                           out.0.value == Chart(s.nextId, input.name.value, input.chartType.value,
                                                input.features, input.visible, input.order, now))
    ensures out.0.Ok? ==> out.0.value.chartType in ChartTypes && out.1.docs == s.docs + [out.0.value]
    ensures ValidCharts(out.1)
  {
    if out.0.Ok? {
      assert out.1.docs[|s.docs|] == out.0.value;
    }
  }

  // ---------------------------------------------------------------------
  // PUT /dashboard-charts/:id
  // ---------------------------------------------------------------------

  /** The `updates` object of PUT: a field is written only when the body
      has the key. */
  datatype ChartUpdate = ChartUpdate(
    name: Write<string>,
    chartType: Write<string>,
    features: Write<seq<string>>,
    visible: Write<bool>,
    order: Write<JsNumber>)

  /** PUT's `updates`, built field by field: `String(name).trim()`, the
      lower-cased `String(chart_type)`, which must be listed (400
      otherwise), the normalised features, `Boolean(visible)` and
      `Number(order)`. */
  function PutUpdates(body: JsValue): (r: Response<ChartUpdate>)
    ensures r.Ok? || r.BadRequest?
    ensures r.BadRequest? <==> (!Get(body, "chart_type").Undefined? &&
                                Lower(ToString(Get(body, "chart_type"))) !in ChartTypes)
    ensures r.BadRequest? ==> r.error == ChartTypeInvalid
    ensures r.Ok? ==> (r.value.name.Keep? <==> Get(body, "name").Undefined?)
    ensures r.Ok? ==> (r.value.chartType.Keep? <==> Get(body, "chart_type").Undefined?)
    ensures r.Ok? ==> (r.value.features.Keep? <==> Get(body, "features").Undefined?)
    ensures r.Ok? ==> (r.value.visible.Keep? <==> Get(body, "visible").Undefined?)
    ensures r.Ok? ==> (r.value.order.Keep? <==> Get(body, "order").Undefined?)
    ensures r.Ok? && r.value.chartType.Set? ==> r.value.chartType.value in ChartTypes
    ensures r.Ok? && r.value.features.Set? ==> CleanFeatures(r.value.features.value)
    ensures r.Ok? && r.value.name.Set? ==> r.value.name.value == Trim(ToString(Get(body, "name")))
    ensures r.Ok? && r.value.visible.Set? ==> r.value.visible.value == Truthy(Get(body, "visible"))
    ensures r.Ok? && r.value.order.Set? ==> r.value.order.value == ToNumber(Get(body, "order"))
  {
    var name := Get(body, "name");
    var chartType := Get(body, "chart_type");
    var features := Get(body, "features");
    var visible := Get(body, "visible");
    var order := Get(body, "order");
    var ct := Lower(ToString(chartType));
    if !chartType.Undefined? && ct !in ChartTypes then BadRequest(ChartTypeInvalid)
    else
      Ok(ChartUpdate(
        if name.Undefined? then Keep else Set(Trim(ToString(name))),
        if chartType.Undefined? then Keep else Set(ct),
        if features.Undefined? then Keep else Set(Features(features)),
        if visible.Undefined? then Keep else Set(Truthy(visible)),
        if order.Undefined? then Keep else Set(ToNumber(order))))
  }

  /** The stored chart after an update: kept fields stay, the others take
      the written value. */
  function ApplyUpdate(c: Chart, u: ChartUpdate): (r: Chart)
    requires !(u.order.Set? && u.order.value.NaN?)
    ensures r.id == c.id && r.createdAt == c.createdAt
    ensures r.name == Apply(u.name, c.name) && r.chartType == Apply(u.chartType, c.chartType)
    ensures r.features == Apply(u.features, c.features) && r.visible == Apply(u.visible, c.visible)
    ensures u.order.Keep? ==> r.order == c.order
    ensures u.order.Set? ==> r.order == u.order.value.x
  {
    c.(name := Apply(u.name, c.name), chartType := Apply(u.chartType, c.chartType),
       features := Apply(u.features, c.features), visible := Apply(u.visible, c.visible),
       order := if u.order.Set? then u.order.value.x else c.order)
  }

  /** PUT /dashboard-charts/:id as a function of the collection. */
  function UpdateChartSpec(s: Charts, id: string, body: JsValue): (Response<Chart>, Charts)
  {
    UpdateChartWith(s, id, PutUpdates(body))
  }

  /** PUT once `updates` is built: a 400 from the type check, then
      `findByIdAndUpdate`, which fails its casts on a malformed id or a NaN
      order and answers 404 for an unknown id. */
  function UpdateChartWith(s: Charts, id: string, u: Response<ChartUpdate>): (Response<Chart>, Charts)
  {
    if u.BadRequest? then (BadRequest(u.error), s)
    else if !u.Ok? then (InternalError, s)
    else
      match CastObjectId(Str(id))
      case None => (InternalError, s)
      case Some(oid) =>
        if u.value.order.Set? && u.value.order.value.NaN? then (InternalError, s)
        else
          var i := FindChart(s.docs, oid);
          if i == |s.docs| then (NotFound(ChartNotFound), s)
          else
            var c := ApplyUpdate(s.docs[i], u.value);
            (Ok(c), Charts(s.docs[i := c], s.nextId))
  }

  /** What PUT answers: the type check's 400 comes first and changes
      nothing, 404 exactly for a well-formed id no chart has, and otherwise
      only that chart changes, and only in the fields the body names; the
      collection stays valid. */
  lemma UpdateChartOutcome(s: Charts, id: string, u: Response<ChartUpdate>, out: (Response<Chart>, Charts))
    requires ValidCharts(s) && out == UpdateChartWith(s, id, u)
    requires u.Ok? || u.BadRequest?
    requires u.Ok? && u.value.chartType.Set? ==> u.value.chartType.value in ChartTypes
    requires u.Ok? && u.value.features.Set? ==> CleanFeatures(u.value.features.value)
    ensures out.0.Ok? || out.0.BadRequest? || out.0.NotFound? || out.0.InternalError?
    ensures out.0.BadRequest? <==> u.BadRequest?
    ensures var oid := CastObjectId(Str(id));
      out.0.NotFound? <==> (u.Ok? && oid.Some? && !(u.value.order.Set? && u.value.order.value.NaN?) &&
                            forall i :: 0 <= i < |s.docs| ==> s.docs[i].id != oid.value)
    ensures out.0.NotFound? ==> out.0.error == ChartNotFound
    ensures !out.0.Ok? ==> out.1 == s
    ensures out.0.Ok? ==> (u.Ok? && exists i :: (0 <= i < |s.docs| && Some(s.docs[i].id) == CastObjectId(Str(id)) &&
                                                 out.0.value == ApplyUpdate(s.docs[i], u.value) &&
                                                 out.1 == Charts(s.docs[i := out.0.value], s.nextId)))
    ensures ValidCharts(out.1)
  {
    if out.0.Ok? {
      var i := FindChart(s.docs, CastObjectId(Str(id)).value);
      assert s.docs[i := out.0.value][i] == out.0.value;
    }
  }

  // ---------------------------------------------------------------------
  // GET and DELETE
  // ---------------------------------------------------------------------

  /** `sort({ order: 1, created_at: 1 })`. */
  function ByOrderThenCreated(): (Chart, Chart) -> bool
  {
    (a: Chart, b: Chart) => a.order < b.order || (a.order == b.order && a.createdAt <= b.createdAt)
  }

  /** GET /dashboard-charts: every chart, by `order` and then by creation time. */
  function ListCharts(s: Charts): (r: seq<Chart>)
    ensures |r| == |s.docs| && multiset(r) == multiset(s.docs)
    ensures forall i, j :: 0 <= i < j < |r| ==>
      r[i].order < r[j].order || (r[i].order == r[j].order && r[i].createdAt <= r[j].createdAt)
  {
    assert TotalPreorder(ByOrderThenCreated());
    var r := Sort(s.docs, ByOrderThenCreated());
    assert Sorted(r, ByOrderThenCreated());
    r
  }

  /** DELETE /dashboard-charts/:id: `findByIdAndDelete`, 404 when nothing
      was deleted. */
  function DeleteChartSpec(s: Charts, id: string): (Response<()>, Charts)
  {
    match CastObjectId(Str(id))
    case None => (InternalError, s)
    case Some(oid) =>
      var i := FindChart(s.docs, oid);
      if i == |s.docs| then (NotFound(ChartNotFound), s)
      else (Ok(()), Charts(s.docs[..i] + s.docs[i + 1..], s.nextId))
  }

  /** Unlike the account and strategy routes, DELETE answers 404 for an
      unknown id; otherwise it removes exactly the chart with that id and
      keeps the others in order. */
  lemma DeleteChartOutcome(s: Charts, id: string, out: (Response<()>, Charts))
    requires ValidCharts(s) && out == DeleteChartSpec(s, id)
    ensures out.0.Ok? || out.0.NotFound? || out.0.InternalError?
    ensures out.0.InternalError? <==> CastObjectId(Str(id)).None?
    ensures out.0.NotFound? <==> (CastObjectId(Str(id)).Some? &&
                                  forall i :: 0 <= i < |s.docs| ==> s.docs[i].id != CastObjectId(Str(id)).value)
    ensures out.0.NotFound? ==> out.0.error == ChartNotFound
    ensures !out.0.Ok? ==> out.1 == s
    ensures out.0.Ok? ==> (|out.1.docs| == |s.docs| - 1 &&
                           forall a :: a in out.1.docs <==> a in s.docs && Some(a.id) != CastObjectId(Str(id)))
    ensures out.1.nextId == s.nextId && ValidCharts(out.1)
  {
    match CastObjectId(Str(id))
    case None =>
    case Some(oid) =>
      var i := FindChart(s.docs, oid);
      if i < |s.docs| {
        RemoveChart(s, i);
        assert out.1.docs == s.docs[..i] + s.docs[i + 1..];
      }
  }

  /** Removing the chart at `i` removes exactly the charts with its id. */
  lemma RemoveChart(s: Charts, i: nat)
    requires ValidCharts(s) && i < |s.docs|
    ensures var r := s.docs[..i] + s.docs[i + 1..];
      ValidCharts(Charts(r, s.nextId)) &&
      forall a :: a in r <==> a in s.docs && a.id != s.docs[i].id
  {
    var r := s.docs[..i] + s.docs[i + 1..];
    forall k | 0 <= k < |r| ensures r[k] == s.docs[if k < i then k else k + 1] && WellFormed(r[k]) {
    }
    forall a | a in s.docs && a.id != s.docs[i].id ensures a in r {
      var k :| 0 <= k < |s.docs| && s.docs[k] == a;
      if k < i { assert r[k] == a; } else { assert r[k - 1] == a; }
    }
  }

  // ---------------------------------------------------------------------
  // The collection
  // ---------------------------------------------------------------------

  class ChartStore {
    var docs: seq<Chart>
    var nextId: ObjectId

    function State(): Charts
      reads this
    {
      Charts(docs, nextId)
    }

    ghost predicate Valid()
      reads this
    {
      ValidCharts(State())
    }

    constructor()
      ensures State() == Charts([], 0) && Valid()
    {
      docs := [];
      nextId := 0;
    }

    /** POST /dashboard-charts. */
    method Create(body: JsValue, now: int) returns (r: Response<Chart>)
      requires Valid()
      modifies this
      ensures (r, State()) == CreateChartSpec(old(State()), body, now)
      ensures Valid()
    {
      var input := PostInput(body);
      r := Insert(input, now);
    }

    /** The part of POST after the body is normalised. */
    method Insert(input: ChartInput, now: int) returns (r: Response<Chart>)
      requires Valid() && CleanFeatures(input.features)
      modifies this
      ensures (r, State()) == CreateChartWith(old(State()), input, now)
      ensures Valid()
    {
      ghost var before := State();
      if !input.name.Ok? {
        r := InternalError;
      } else if input.name.value == [] {
        r := BadRequest(ChartNameRequired);
      } else if !input.chartType.Ok? {
        r := InternalError;
      } else if input.chartType.value !in ChartTypes {
        r := BadRequest(ChartTypeInvalid);
      } else {
        var c := Chart(nextId, input.name.value, input.chartType.value, input.features,
                       input.visible, input.order, now);
        docs, nextId := docs + [c], nextId + 1;
        r := Ok(c);
      }
      CreateChartOutcome(before, input, now, (r, State()));
    }

    /** PUT /dashboard-charts/:id. */
    method Update(id: string, body: JsValue) returns (r: Response<Chart>)
      requires Valid()
      modifies this
      ensures (r, State()) == UpdateChartSpec(old(State()), id, body)
      ensures Valid()
    {
      var u := PutUpdates(body);
      r := UpdateIn(id, u);
    }

    /** The part of PUT after `updates` is built. */
    method UpdateIn(id: string, u: Response<ChartUpdate>) returns (r: Response<Chart>)
      requires Valid() && (u.Ok? || u.BadRequest?)
      requires u.Ok? && u.value.chartType.Set? ==> u.value.chartType.value in ChartTypes
      requires u.Ok? && u.value.features.Set? ==> CleanFeatures(u.value.features.value)
      modifies this
      ensures (r, State()) == UpdateChartWith(old(State()), id, u)
      ensures Valid()
    {
      ghost var before := State();
      var oid := CastObjectId(Str(id));
      if u.BadRequest? {
        r := BadRequest(u.error);
      } else if oid.None? || (u.value.order.Set? && u.value.order.value.NaN?) {
        r := InternalError;
      } else {
        var i := FindChart(docs, oid.value);
        if i == |docs| {
          r := NotFound(ChartNotFound);
        } else {
          var c := ApplyUpdate(docs[i], u.value);
          docs := docs[i := c];
          r := Ok(c);
        }
      }
      UpdateChartOutcome(before, id, u, (r, State()));
    }

    /** DELETE /dashboard-charts/:id. */
    method Delete(id: string) returns (r: Response<()>)
      requires Valid()
      modifies this
      ensures (r, State()) == DeleteChartSpec(old(State()), id)
      ensures Valid()
    {
      DeleteChartOutcome(State(), id, DeleteChartSpec(State(), id));
      var oid := CastObjectId(Str(id));
      if oid.None? {
        return InternalError;
      }
      var i := FindChart(docs, oid.value);
      if i == |docs| {
        return NotFound(ChartNotFound);
      }
      docs := docs[..i] + docs[i + 1..];
      r := Ok(());
    }
  }
}

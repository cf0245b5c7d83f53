/** The difference table between local prices and those of other channels: buildDifferences in
    controller/ratio_sync.go. */
module RatioDiff {
  import opened Prelude
  import opened Ratios

  /** Names of models and channels. */
  type Name(==, !new)

  /** A decoded JSON value: nothing, a float64, another number type, or text. */
  datatype Value = Null | Float(x: real) | Whole(n: int) | Text(s: string)

  const SAME := Text("same")

  datatype Field =
    | ModelRatio | CompletionRatio | CacheRatio | CreateCacheRatio | ImageRatio | AudioRatio
    | AudioCompletionRatio | ModelPrice | BillingMode | BillingExpr

  const FIELDS: seq<Field> := [
    ModelRatio, CompletionRatio, CacheRatio, CreateCacheRatio, ImageRatio, AudioRatio,
    AudioCompletionRatio, ModelPrice, BillingMode, BillingExpr]

  predicate Numeric(field: Field) {
    !field.BillingMode? && !field.BillingExpr?
  }

  type Table = map<Field, map<Name, Value>>

  datatype Channel = Channel(name: Name, data: Table)

  datatype Item = Item(current: Value, upstreams: map<Name, Value>, confidence: map<Name, bool>)

  type Differences = map<Name, map<Field, Item>>

  predicate ValuesEqual(a: Value, b: Value) {
    if a.Float? && b.Float? then NearlyEqual(a.x, b.x) else a == b
  }

  function AsFloat(v: Value): Option<real> {
    match v
    case Float(x) => Some(x)
    case Whole(n) => Some(n as real)
    case _ => None
  }

  function Normalize(field: Field, v: Value): Value {
    if Numeric(field) && AsFloat(v).Some? then Float(AsFloat(v).value) else v
  }

  function Row(t: Table, field: Field): map<Name, Value> {
    if field in t then t[field] else map[]
  }

  /** The value of a cell, or None when the table has no such cell. */
  function Cell(t: Table, model: Name, field: Field): Option<Value> {
    if model in Row(t, field) then Some(Normalize(field, Row(t, field)[model])) else None
  }

  /** The local value as the code holds it: absent and null are the same. */
  function Current(local: Table, model: Name, field: Field): Value {
    if Cell(local, model, field).Some? then Cell(local, model, field).value else Null
  }

  function Models(t: Table): set<Name> {
    set field, model | field in t && model in t[field] :: model
  }

  /** A channel is not trusted for a model whose two ratios are the placeholder 37.5 and 1. */
  predicate Trusted(ch: Channel, model: Name) {
    var ratios, completions := Row(ch.data, ModelRatio), Row(ch.data, CompletionRatio);
    !(model in ratios && model in completions
      && AsFloat(ratios[model]).Some? && AsFloat(completions[model]).Some?
      && NearlyEqual(AsFloat(ratios[model]).value, 37.5)
      && NearlyEqual(AsFloat(completions[model]).value, 1.0))
  }

  // ---------------------------------------------------------------- one entry

  /** What the entry shows for one channel. */
  function Shown(current: Value, cell: Option<Value>): Value {
    match cell
    case Some(v) => if ValuesEqual(current, v) then SAME else v
    case None => if current == Null then SAME else Null
  }

  /** The channel supplies a value that is not equal to the local one. */
  predicate Differs(current: Value, cell: Option<Value>) {
    cell.Some? && !ValuesEqual(current, cell.value)
  }

  function Columns(current: Value, names: seq<Name>, cells: seq<Option<Value>>): map<Name, Value>
    requires |names| == |cells|
  {
    if names == [] then map[]
    else
      var n := |names| - 1;
      Columns(current, names[..n], cells[..n])[names[n] := Shown(current, cells[n])]
  }

  function Confidences(names: seq<Name>, trusted: seq<bool>): map<Name, bool>
    requires |names| == |trusted|
  {
    if names == [] then map[]
    else
      var n := |names| - 1;
      Confidences(names[..n], trusted[..n])[names[n] := trusted[n]]
  }

  function Names(channels: seq<Channel>): seq<Name> {
    seq(|channels|, i requires 0 <= i < |channels| => channels[i].name)
  }

  /** The cells of one model and field, channel by channel. */
  function Cells(channels: seq<Channel>, model: Name, field: Field): seq<Option<Value>> {
    seq(|channels|, i requires 0 <= i < |channels| => Cell(channels[i].data, model, field))
  }

  function Trust(channels: seq<Channel>, model: Name): seq<bool> {
    seq(|channels|, i requires 0 <= i < |channels| => Trusted(channels[i], model))
  }

  function Entry(local: Table, channels: seq<Channel>, model: Name, field: Field): Item {
    var current := Current(local, model, field);
    Item(current, Columns(current, Names(channels), Cells(channels, model, field)),
         Confidences(Names(channels), Trust(channels, model)))
  }

  // ---------------------------------------------------------------- what a difference is, in terms of the tables

  /** The value as a table holds it. */
  function Raw(t: Table, model: Name, field: Field): Option<Value> {
    if field in t && model in t[field] then Some(t[field][model]) else None
  }

  /** Without a local value the local one counts as null. */
  function RawCurrent(local: Table, model: Name, field: Field): Value {
    match Raw(local, model, field) case Some(v) => v case None => Null
  }

  predicate IsNumber(v: Value) {
    v.Float? || v.Whole?
  }

  function NumberOf(v: Value): real
    requires IsNumber(v)
  {
    match v case Float(x) => x case Whole(n) => n as real
  }

  predicate IsPrice(field: Field) {
    field in {ModelRatio, CompletionRatio, CacheRatio, CreateCacheRatio, ImageRatio, AudioRatio, AudioCompletionRatio,
              ModelPrice}
  }

  /** Two numbers of a price are the same when they are less than 10^-9 apart, of whichever kind they are; so are two
      floats anywhere. All other values have to be equal. */
  predicate SameValue(field: Field, a: Value, b: Value) {
    if IsNumber(a) && IsNumber(b) && (IsPrice(field) || (a.Float? && b.Float?)) then
      -0.000000001 < NumberOf(a) - NumberOf(b) < 0.000000001
    else a == b
  }

  /** What the table shows of a value: numbers of a price are floats. */
  function AsShown(field: Field, v: Value): Value {
    if IsPrice(field) && IsNumber(v) then Float(NumberOf(v)) else v
  }

  /** The channel holds the value "same" or the same value as the local table, or neither holds one. */
  predicate ReadsSame(local: Table, ch: Channel, model: Name, field: Field) {
    match Raw(ch.data, model, field)
    case Some(v) => v == SAME || SameValue(field, RawCurrent(local, model, field), v)
    case None => RawCurrent(local, model, field) == Null
  }

  /** What the channel's column reads. */
  function Reads(local: Table, ch: Channel, model: Name, field: Field): Value {
    if ReadsSame(local, ch, model, field) then SAME
    else match Raw(ch.data, model, field) case Some(v) => AsShown(field, v) case None => Null
  }

  /** The two ratios of the model are the placeholder 37.5 and 1. */
  predicate IsPlaceholder(ch: Channel, model: Name) {
    var ratio, completion := Raw(ch.data, model, ModelRatio), Raw(ch.data, model, CompletionRatio);
    && ratio.Some? && completion.Some? && IsNumber(ratio.value) && IsNumber(completion.value)
    && 37.499999999 < NumberOf(ratio.value) < 37.500000001
    && 0.999999999 < NumberOf(completion.value) < 1.000000001
  }

  lemma NormalizeIs(field: Field, v: Value)
    ensures Normalize(field, v) == AsShown(field, v)
    ensures Plain(Normalize(field, v)) <==> Plain(v)
    ensures Normalize(field, v) == SAME <==> v == SAME
  {
  }

  lemma EqualIffSame(field: Field, a: Value, b: Value)
    ensures ValuesEqual(Normalize(field, a), Normalize(field, b)) <==> SameValue(field, a, b)
  {
  }

  lemma DiffersIff(local: Table, ch: Channel, model: Name, field: Field)
    ensures DiffersAt(local, ch, model, field) <==>
            Differs(Current(local, model, field), Cell(ch.data, model, field))
    ensures Raw(ch.data, model, field).Some? <==> Cell(ch.data, model, field).Some?
    ensures Raw(ch.data, model, field).Some? ==>
              (Plain(Raw(ch.data, model, field).value) <==> Plain(Cell(ch.data, model, field).value))
  {
    var v := Raw(ch.data, model, field);
    if v.Some? {
      NormalizeIs(field, v.value);
      EqualIffSame(field, RawCurrent(local, model, field), v.value);
    }
  }

  lemma ShownIsRead(local: Table, ch: Channel, model: Name, field: Field)
    ensures Shown(Current(local, model, field), Cell(ch.data, model, field)) == Reads(local, ch, model, field)
    ensures Current(local, model, field) == AsShown(field, RawCurrent(local, model, field))
  {
    var v, current := Raw(ch.data, model, field), RawCurrent(local, model, field);
    NormalizeIs(field, current);
    if v.Some? {
      NormalizeIs(field, v.value);
      EqualIffSame(field, current, v.value);
    }
  }

  lemma TrustedIff(ch: Channel, model: Name)
    ensures Trusted(ch, model) <==> !IsPlaceholder(ch, model)
  {
  }

  /** Some channel really differs at this cell. */
  ghost predicate RealDifference(local: Table, channels: seq<Channel>, model: Name, field: Field) {
    exists i :: 0 <= i < |channels| && DiffersAt(local, channels[i], model, field)
  }

  /** The channel holds a value that is not the same as the local one. */
  predicate DiffersAt(local: Table, ch: Channel, model: Name, field: Field) {
    var v := Raw(ch.data, model, field);
    v.Some? && !SameValue(field, RawCurrent(local, model, field), v.value)
  }

  /** A value that the clean-up phase recognises as a difference. */
  predicate Plain(v: Value) {
    v != Null && v != SAME
  }

  /** The channel differs from the local table at some cell, with a value other than null and "same". */
  ghost predicate DiffersSomewhere(local: Table, ch: Channel) {
    exists model, field :: DiffersAt(local, ch, model, field) && Plain(Raw(ch.data, model, field).value)
  }

  /** No channel offers null or the text "same" where it differs from the local table. */
  ghost predicate PlainInputs(local: Table, channels: seq<Channel>) {
    forall i, model, field | 0 <= i < |channels| && DiffersAt(local, channels[i], model, field) ::
      Plain(Raw(channels[i].data, model, field).value)
  }

  predicate DistinctNames(channels: seq<Channel>) {
    forall i, j :: 0 <= i < j < |channels| ==> channels[i].name != channels[j].name
  }

  /** No later channel has the same name; a later one would overwrite this one's column. */
  predicate IsLast(channels: seq<Channel>, i: int) {
    0 <= i < |channels| && forall j | i < j < |channels| :: channels[j].name != channels[i].name
  }

  /** The flag `hasDifference` that one channel raises. */
  predicate Flags(current: Value, cell: Option<Value>) {
    if current != Null then Differs(current, cell)
    else Plain(Shown(current, cell))
  }

  method ShowOne(current: Value, cell: Option<Value>) returns (upstream: Value, differs: bool)
    ensures upstream == Shown(current, cell)
    ensures differs <==> Flags(current, cell)
  {
    upstream, differs := Null, false;
    if cell.Some? {
      upstream := cell.value;
      if current != Null && !ValuesEqual(current, upstream) {
        differs := true;
      } else if ValuesEqual(current, upstream) {
        upstream := SAME;
      }
    }
    if upstream == Null && current == Null {
      upstream := SAME;
    }
    if current == Null && upstream != Null && upstream != SAME {
      differs := true;
    }
  }

  predicate AnyFlags(current: Value, cells: seq<Option<Value>>) {
    exists i :: 0 <= i < |cells| && Flags(current, cells[i])
  }

  predicate AnySome(cells: seq<Option<Value>>) {
    exists i :: 0 <= i < |cells| && cells[i].Some?
  }

  /** The flag `shouldInclude` after all channels. */
  predicate Included(current: Value, cells: seq<Option<Value>>) {
    if current != Null then AnyFlags(current, cells) else AnySome(cells)
  }

  lemma OneMoreCell(current: Value, cells: seq<Option<Value>>, cell: Option<Value>)
    ensures AnyFlags(current, cells + [cell]) <==> AnyFlags(current, cells) || Flags(current, cell)
    ensures AnySome(cells + [cell]) <==> AnySome(cells) || cell.Some?
  {
    var more := cells + [cell];
    assert more[|cells|] == cell && forall i :: 0 <= i < |cells| ==> more[i] == cells[i];
  }

  /** The loop over the channels for one cell. */
  method BuildItem(current: Value, names: seq<Name>, cells: seq<Option<Value>>, trusted: seq<bool>)
    returns (item: Item, included: bool)
    requires |names| == |cells| == |trusted|
    ensures item == Item(current, Columns(current, names, cells), Confidences(names, trusted))
    ensures included <==> Included(current, cells)
  {
    var upstreams: map<Name, Value> := map[];
    var confidence: map<Name, bool> := map[];
    var hasUpstream, hasDifference := false, false;
    for i := 0 to |names|
      invariant upstreams == Columns(current, names[..i], cells[..i])
      invariant confidence == Confidences(names[..i], trusted[..i])
      invariant hasUpstream <==> AnySome(cells[..i])
      invariant hasDifference <==> AnyFlags(current, cells[..i])
    {
      assert names[..i + 1][..i] == names[..i] && cells[..i + 1][..i] == cells[..i];
      assert trusted[..i + 1][..i] == trusted[..i] && cells[..i + 1] == cells[..i] + [cells[i]];
      OneMoreCell(current, cells[..i], cells[i]);
      var upstream, differs := ShowOne(current, cells[i]);
      hasUpstream := hasUpstream || cells[i].Some?;
      hasDifference := hasDifference || differs;
      upstreams := upstreams[names[i] := upstream];
      confidence := confidence[names[i] := trusted[i]];
    }
    assert names[..|names|] == names && cells[..|cells|] == cells && trusted[..|trusted|] == trusted;
    included := if current != Null then hasDifference else hasUpstream;
    item := Item(current, upstreams, confidence);
  }

  /** Every real difference is included in the first place. */
  lemma DifferenceIsIncluded(local: Table, channels: seq<Channel>, model: Name, field: Field)
    requires RealDifference(local, channels, model, field)
    ensures Wanted(local, channels, model, field)
  {
    var i :| 0 <= i < |channels| && DiffersAt(local, channels[i], model, field);
    DiffersIff(local, channels[i], model, field);
    assert Cells(channels, model, field)[i] == Cell(channels[i].data, model, field);
  }

  lemma {:induction false} ColumnsOf(current: Value, names: seq<Name>, cells: seq<Option<Value>>,
                                     trusted: seq<bool>, name: Name)
    requires |names| == |cells| == |trusted|
    ensures name in Columns(current, names, cells) <==> name in names
    ensures name in Confidences(names, trusted) <==> name in names
  {
    if names != [] {
      var n := |names| - 1;
      ColumnsOf(current, names[..n], cells[..n], trusted[..n], name);
      assert names == names[..n] + [names[n]];
    }
  }

  /** Every column shows the last channel of its name. */
  lemma {:induction false} ColumnShows(current: Value, names: seq<Name>, cells: seq<Option<Value>>,
                                       trusted: seq<bool>, i: nat)
    requires |names| == |cells| == |trusted| && i < |names|
    requires forall j | i < j < |names| :: names[j] != names[i]
    ensures names[i] in Columns(current, names, cells)
    ensures Columns(current, names, cells)[names[i]] == Shown(current, cells[i])
    ensures names[i] in Confidences(names, trusted)
    ensures Confidences(names, trusted)[names[i]] == trusted[i]
  {
    var n := |names| - 1;
    if i < n { ColumnShows(current, names[..n], cells[..n], trusted[..n], i); }
  }

  // ---------------------------------------------------------------- filling the table

  predicate Has(d: Differences, model: Name, field: Field) {
    model in d && field in d[model]
  }

  function At(d: Differences, model: Name, field: Field): Item
    requires Has(d, model, field)
  {
    d[model][field]
  }

  function Put(d: Differences, model: Name, field: Field, item: Item): Differences {
    d[model := (if model in d then d[model] else map[])[field := item]]
  }

  /** The table holds exactly the wanted entries among those visited. */
  ghost predicate Filled(d: Differences, visited: set<(Name, Field)>,
                         wanted: (Name, Field) -> bool, entry: (Name, Field) -> Item)
  {
    forall m, f ::
      && (Has(d, m, f) <==> (m, f) in visited && wanted(m, f))
      && (Has(d, m, f) ==> At(d, m, f) == entry(m, f))
  }

  lemma VisitOne(d: Differences, visited: set<(Name, Field)>, wanted: (Name, Field) -> bool,
                 entry: (Name, Field) -> Item, m: Name, f: Field)
    requires Filled(d, visited, wanted, entry)
    ensures Filled(if wanted(m, f) then Put(d, m, f, entry(m, f)) else d, visited + {(m, f)}, wanted, entry)
  {
  }

  predicate Wanted(local: Table, channels: seq<Channel>, model: Name, field: Field) {
    Included(Current(local, model, field), Cells(channels, model, field))
  }

  /** Every model that the local table or some channel mentions. */
  function AllModels(local: Table, channels: seq<Channel>): set<Name> {
    Models(local) + set i, model | 0 <= i < |channels| && model in Models(channels[i].data) :: model
  }

  method FillModel(d0: Differences, local: Table, channels: seq<Channel>, model: Name,
                   ghost visited: set<(Name, Field)>)
    returns (d: Differences)
    requires Filled(d0, visited, (m, f) => Wanted(local, channels, m, f), (m, f) => Entry(local, channels, m, f))
    ensures Filled(d, visited + (set f <- FIELDS :: (model, f)),
                   (m, f) => Wanted(local, channels, m, f), (m, f) => Entry(local, channels, m, f))
  {
    d := d0;
    ghost var wanted := (m, f) => Wanted(local, channels, m, f);
    ghost var entry := (m, f) => Entry(local, channels, m, f);
    for k := 0 to |FIELDS|
      invariant Filled(d, visited + (set f <- FIELDS[..k] :: (model, f)), wanted, entry)
    {
      ghost var seen := visited + (set f <- FIELDS[..k] :: (model, f));
      assert FIELDS[..k + 1] == FIELDS[..k] + [FIELDS[k]];
      assert visited + (set f <- FIELDS[..k + 1] :: (model, f)) == seen + {(model, FIELDS[k])};
      VisitOne(d, seen, wanted, entry, model, FIELDS[k]);
      var field := FIELDS[k];
      var item, included := BuildItem(Current(local, model, field), Names(channels),
                                      Cells(channels, model, field), Trust(channels, model));
      assert included == wanted(model, field) && item == entry(model, field);
      if included {
        d := Put(d, model, field, item);
      }
    }
    assert FIELDS[..|FIELDS|] == FIELDS;
  }

  /** The cells visited when the loop over the models is done. */
  method FillAll(local: Table, channels: seq<Channel>) returns (d: Differences)
    ensures Filled(d, set m <- AllModels(local, channels), f <- FIELDS :: (m, f),
                   (m, f) => Wanted(local, channels, m, f), (m, f) => Entry(local, channels, m, f))
  {
    d := map[];
    var todo := AllModels(local, channels);
    ghost var visited: set<(Name, Field)> := {};
    while todo != {}
      invariant todo <= AllModels(local, channels)
      invariant visited == set m <- AllModels(local, channels) - todo, f <- FIELDS :: (m, f)
      invariant Filled(d, visited, (m, f) => Wanted(local, channels, m, f), (m, f) => Entry(local, channels, m, f))
    {
      var model :| model in todo;
      d := FillModel(d, local, channels, model, visited);
      visited := visited + (set f <- FIELDS :: (model, f));
      todo := todo - {model};
    }
    assert visited == set m <- AllModels(local, channels), f <- FIELDS :: (m, f);
  }

  // ---------------------------------------------------------------- cleaning up

  /** The names that one entry marks as having a difference. */
  method Marked(item: Item) returns (marked: set<Name>)
    ensures marked == set n | n in item.upstreams && Plain(item.upstreams[n])
  {
    marked := {};
    var todo := item.upstreams.Keys;
    while todo != {}
      invariant todo <= item.upstreams.Keys
      invariant marked == set n | n in item.upstreams && n !in todo && Plain(item.upstreams[n])
    {
      var name :| name in todo;
      if Plain(item.upstreams[name]) { marked := marked + {name}; }
      todo := todo - {name};
    }
  }

  ghost predicate MarkedIn(d: Differences, model: Name, field: Field, name: Name) {
    Has(d, model, field) && name in At(d, model, field).upstreams && Plain(At(d, model, field).upstreams[name])
  }

  method ChannelsWithDiff(d: Differences) returns (kept: set<Name>)
    ensures forall n :: n in kept <==> exists m, f :: MarkedIn(d, m, f, n)
  {
    kept := {};
    var todo := set m <- d, f <- d[m] :: (m, f);
    while todo != {}
      invariant forall m, f :: (m, f) in todo ==> Has(d, m, f)
      invariant forall n :: n in kept <==> exists m, f :: (m, f) !in todo && MarkedIn(d, m, f, n)
    {
      var cell :| cell in todo;
      assert Has(d, cell.0, cell.1);
      var marked := Marked(At(d, cell.0, cell.1));
      kept := kept + marked;
      todo := todo - {cell};
    }
  }

  function PrunedItem(item: Item, kept: set<Name>): Item {
    Item(item.current,
         map n | n in item.upstreams && n in kept :: item.upstreams[n],
         map n | n in item.confidence && n in kept :: item.confidence[n])
  }

  /** Some column is left, and not all of them read "same". */
  predicate Survives(item: Item) {
    exists n | n in item.upstreams :: item.upstreams[n] != SAME
  }

  function PrunedModel(entries: map<Field, Item>, kept: set<Name>): map<Field, Item> {
    map f | f in entries && Survives(PrunedItem(entries[f], kept)) :: PrunedItem(entries[f], kept)
  }

  method PruneModel(entries: map<Field, Item>, kept: set<Name>) returns (left: map<Field, Item>)
    ensures left == PrunedModel(entries, kept)
  {
    left := entries;
    var todo := entries.Keys;
    while todo != {}
      invariant todo <= entries.Keys
      invariant left == map f | f in entries && (f in todo || Survives(PrunedItem(entries[f], kept)))
                :: if f in todo then entries[f] else PrunedItem(entries[f], kept)
    {
      var field :| field in todo;
      var item := PrunedItem(left[field], kept);
      if Survives(item) {
        left := left[field := item];
      } else {
        left := left - {field};
      }
      todo := todo - {field};
    }
  }

  function PrunedModels(d: Differences, kept: set<Name>): Differences {
    map m | m in d :: PrunedModel(d[m], kept)
  }

  function NonEmpty(d: Differences): Differences {
    map m | m in d && d[m] != map[] :: d[m]
  }

  /** What is left of `d` once all keys but `todo` have their final value, or are gone when it is `none`. */
  ghost function Settled<K, V>(d: map<K, V>, final: map<K, V>, none: V, todo: set<K>): map<K, V>
    requires d.Keys <= final.Keys
  {
    map k | k in d && (k in todo || final[k] != none) :: if k in todo then d[k] else final[k]
  }

  lemma SettleOne<K, V>(d: map<K, V>, final: map<K, V>, none: V, todo: set<K>, k: K)
    requires d.Keys <= final.Keys && k in todo && todo <= d.Keys
    ensures k in Settled(d, final, none, todo) && Settled(d, final, none, todo)[k] == d[k]
    ensures final[k] == none ==> Settled(d, final, none, todo) - {k} == Settled(d, final, none, todo - {k})
    ensures final[k] != none ==> Settled(d, final, none, todo)[k := final[k]] == Settled(d, final, none, todo - {k})
  {
  }

  method PruneAll(d: Differences, kept: set<Name>) returns (left: Differences)
    ensures left == NonEmpty(PrunedModels(d, kept))
  {
    left := d;
    var todo := d.Keys;
    ghost var pruned := PrunedModels(d, kept);
    while todo != {}
      invariant todo <= d.Keys
      invariant left == Settled(d, pruned, map[], todo)
    {
      var model :| model in todo;
      SettleOne(d, pruned, map[], todo, model);
      var entries := PruneModel(left[model], kept);
      if |entries| == 0 {
        left := left - {model};
      } else {
        left := left[model := entries];
      }
      todo := todo - {model};
    }
  }

  // ---------------------------------------------------------------- the whole table

  lemma FieldsAreAll(field: Field)
    ensures field in FIELDS
  {
    assert FIELDS[0] == ModelRatio && FIELDS[1] == CompletionRatio && FIELDS[2] == CacheRatio;
    assert FIELDS[3] == CreateCacheRatio && FIELDS[4] == ImageRatio && FIELDS[5] == AudioRatio;
    assert FIELDS[6] == AudioCompletionRatio && FIELDS[7] == ModelPrice;
    assert FIELDS[8] == BillingMode && FIELDS[9] == BillingExpr;
  }

  /** The loop over the models misses nothing. */
  lemma WantedIsVisited(local: Table, channels: seq<Channel>, model: Name, field: Field)
    requires Wanted(local, channels, model, field)
    ensures model in AllModels(local, channels) && field in FIELDS
  {
    FieldsAreAll(field);
    var cells := Cells(channels, model, field);
    if model !in Row(local, field) {
      var i :| 0 <= i < |cells| && cells[i].Some?;
      assert model in Models(channels[i].data);
    }
  }

  ghost predicate Marks(local: Table, channels: seq<Channel>, model: Name, field: Field, name: Name) {
    && Wanted(local, channels, model, field)
    && name in Entry(local, channels, model, field).upstreams
    && Plain(Entry(local, channels, model, field).upstreams[name])
  }

  ghost predicate MarksSomewhere(local: Table, channels: seq<Channel>, name: Name) {
    exists m, f :: Marks(local, channels, m, f, name)
  }

  /** The columns that the clean-up keeps. */
  ghost function Kept(local: Table, channels: seq<Channel>): set<Name> {
    set n | n in Names(channels) && MarksSomewhere(local, channels, n)
  }

  /** The entries that the clean-up leaves, and what they hold. */
  ghost predicate Cleaned(d: Differences, local: Table, channels: seq<Channel>) {
    var kept := Kept(local, channels);
    && (forall m, f ::
          && (Has(d, m, f) <==> Wanted(local, channels, m, f)
                                && Survives(PrunedItem(Entry(local, channels, m, f), kept)))
          && (Has(d, m, f) ==> At(d, m, f) == PrunedItem(Entry(local, channels, m, f), kept)))
    && (forall m | m in d :: d[m] != map[])
  }

  lemma FilledAt(d: Differences, visited: set<(Name, Field)>, wanted: (Name, Field) -> bool,
                 entry: (Name, Field) -> Item, m: Name, f: Field)
    requires Filled(d, visited, wanted, entry) && (wanted(m, f) ==> (m, f) in visited)
    ensures Has(d, m, f) <==> wanted(m, f)
    ensures Has(d, m, f) ==> At(d, m, f) == entry(m, f)
  {
  }

  /** The filled table holds the wanted entries. */
  lemma FilledAll(table: Differences, local: Table, channels: seq<Channel>, m: Name, f: Field)
    requires Filled(table, set m <- AllModels(local, channels), f <- FIELDS :: (m, f),
                    (m, f) => Wanted(local, channels, m, f), (m, f) => Entry(local, channels, m, f))
    ensures Has(table, m, f) <==> Wanted(local, channels, m, f)
    ensures Has(table, m, f) ==> At(table, m, f) == Entry(local, channels, m, f)
  {
    if Wanted(local, channels, m, f) { WantedIsVisited(local, channels, m, f); }
    FilledAt(table, set m <- AllModels(local, channels), f <- FIELDS :: (m, f),
             (m, f) => Wanted(local, channels, m, f), (m, f) => Entry(local, channels, m, f), m, f);
  }

  /** Pruning, entry by entry. */
  lemma PrunedEntry(table: Differences, kept: set<Name>, m: Name, f: Field)
    ensures var d := NonEmpty(PrunedModels(table, kept));
            && (Has(d, m, f) <==> Has(table, m, f) && Survives(PrunedItem(At(table, m, f), kept)))
            && (Has(d, m, f) ==> At(d, m, f) == PrunedItem(At(table, m, f), kept))
  {
    if m in table {
      var entries := PrunedModel(table[m], kept);
      assert PrunedModels(table, kept)[m] == entries && (f in entries ==> entries != map[]);
    }
  }

  /** The marks of the filled table are the marks of the entries. */
  lemma KeptIs(table: Differences, local: Table, channels: seq<Channel>, names: set<Name>)
    requires forall m, f ::
               && (Has(table, m, f) <==> Wanted(local, channels, m, f))
               && (Has(table, m, f) ==> At(table, m, f) == Entry(local, channels, m, f))
    requires forall n :: n in names <==> exists m, f :: MarkedIn(table, m, f, n)
    ensures names == Kept(local, channels)
  {
    assert forall m, f, n :: MarkedIn(table, m, f, n) <==> Marks(local, channels, m, f, n);
    forall n ensures n in names <==> n in Kept(local, channels) {
      if m, f :| Marks(local, channels, m, f, n) { EntryNames(local, channels, m, f, n); }
    }
  }

  method BuildDifferences(local: Table, channels: seq<Channel>) returns (d: Differences)
    ensures Cleaned(d, local, channels)
  {
    var table := FillAll(local, channels);
    var names := ChannelsWithDiff(table);
    d := PruneAll(table, names);
    forall m, f
      ensures Has(table, m, f) <==> Wanted(local, channels, m, f)
      ensures Has(table, m, f) ==> At(table, m, f) == Entry(local, channels, m, f)
      ensures Has(d, m, f) <==> Has(table, m, f) && Survives(PrunedItem(At(table, m, f), names))
      ensures Has(d, m, f) ==> At(d, m, f) == PrunedItem(At(table, m, f), names)
    {
      FilledAll(table, local, channels, m, f);
      PrunedEntry(table, names, m, f);
    }
    KeptIs(table, local, channels, names);
  }

  // ---------------------------------------------------------------- what the table means

  /** The column of channel `i`, the last of its name, in the entry of one cell. */
  lemma EntryShows(local: Table, channels: seq<Channel>, model: Name, field: Field, i: nat)
    requires IsLast(channels, i)
    ensures var e := Entry(local, channels, model, field);
            && channels[i].name in e.upstreams
            && e.upstreams[channels[i].name] ==
                 Shown(Current(local, model, field), Cell(channels[i].data, model, field))
            && channels[i].name in e.confidence && e.confidence[channels[i].name] == Trusted(channels[i], model)
  {
    ColumnShows(Current(local, model, field), Names(channels), Cells(channels, model, field),
                Trust(channels, model), i);
  }

  lemma EntryNames(local: Table, channels: seq<Channel>, model: Name, field: Field, name: Name)
    ensures var e := Entry(local, channels, model, field);
            && (name in e.upstreams <==> name in Names(channels))
            && (name in e.confidence <==> name in Names(channels))
  {
    ColumnsOf(Current(local, model, field), Names(channels), Cells(channels, model, field),
              Trust(channels, model), name);
  }

  /** A channel marks the cells where it differs with a plain value, and no others. */
  lemma MarksWhereItDiffers(local: Table, channels: seq<Channel>, model: Name, field: Field, i: nat)
    requires IsLast(channels, i)
    ensures Marks(local, channels, model, field, channels[i].name) <==>
            DiffersAt(local, channels[i], model, field) && Plain(Raw(channels[i].data, model, field).value)
  {
    DiffersIff(local, channels[i], model, field);
    EntryShows(local, channels, model, field, i);
    if DiffersAt(local, channels[i], model, field) {
      DifferenceIsIncluded(local, channels, model, field);
    }
  }

  lemma KeptIffDiffersSomewhere(local: Table, channels: seq<Channel>, i: nat)
    requires IsLast(channels, i)
    ensures channels[i].name in Kept(local, channels) <==> DiffersSomewhere(local, channels[i])
  {
    assert Names(channels)[i] == channels[i].name;
    forall m, f
      ensures Marks(local, channels, m, f, channels[i].name) <==>
              DiffersAt(local, channels[i], m, f) && Plain(Raw(channels[i].data, m, f).value)
    {
      MarksWhereItDiffers(local, channels, m, f, i);
    }
  }

  /** Channel `i` differs somewhere and does not read "same" at this cell. */
  ghost predicate SpeaksAt(local: Table, ch: Channel, model: Name, field: Field) {
    && DiffersSomewhere(local, ch)
    && !ReadsSame(local, ch, model, field)
  }

  /** The item has a column for the channel exactly when it differs somewhere, showing its own value and confidence. */
  ghost predicate ColumnIs(item: Item, local: Table, ch: Channel, model: Name, field: Field) {
    && (ch.name in item.upstreams <==> DiffersSomewhere(local, ch))
    && (ch.name in item.confidence <==> DiffersSomewhere(local, ch))
    && (DiffersSomewhere(local, ch) ==>
          && item.upstreams[ch.name] == Reads(local, ch, model, field)
          && item.confidence[ch.name] == !IsPlaceholder(ch, model))
  }

  lemma PrunedColumn(local: Table, channels: seq<Channel>, kept: set<Name>, model: Name, field: Field, i: nat)
    requires IsLast(channels, i)
    requires channels[i].name in kept <==> DiffersSomewhere(local, channels[i])
    ensures ColumnIs(PrunedItem(Entry(local, channels, model, field), kept), local, channels[i], model, field)
  {
    ShownIsRead(local, channels[i], model, field);
    TrustedIff(channels[i], model);
    EntryShows(local, channels, model, field, i);
  }

  lemma PrunedNames(local: Table, channels: seq<Channel>, kept: set<Name>, model: Name, field: Field, name: Name)
    ensures var item := PrunedItem(Entry(local, channels, model, field), kept);
            && (name in item.upstreams <==> name in kept && name in Names(channels))
            && (name in item.confidence <==> name in kept && name in Names(channels))
  {
    EntryNames(local, channels, model, field, name);
  }

  /** Every name has a last channel. */
  lemma LastOf(channels: seq<Channel>, k: nat, n: nat) returns (i: nat)
    requires k < n <= |channels|
    requires forall j | n <= j < |channels| :: channels[j].name != channels[k].name
    ensures IsLast(channels, i) && channels[i].name == channels[k].name
  {
    if channels[n - 1].name == channels[k].name {
      i := n - 1;
    } else {
      i := LastOf(channels, k, n - 1);
    }
  }

  lemma ColumnSpeaks(local: Table, channels: seq<Channel>, kept: set<Name>, model: Name, field: Field, i: nat)
    requires IsLast(channels, i)
    requires channels[i].name in kept <==> DiffersSomewhere(local, channels[i])
    ensures var columns := PrunedItem(Entry(local, channels, model, field), kept).upstreams;
            channels[i].name in columns && columns[channels[i].name] != SAME <==>
              SpeaksAt(local, channels[i], model, field)
  {
    PrunedColumn(local, channels, kept, model, field, i);
  }

  lemma ColumnHasChannel(local: Table, channels: seq<Channel>, kept: set<Name>, model: Name, field: Field, n: Name)
    returns (i: nat)
    requires n in PrunedItem(Entry(local, channels, model, field), kept).upstreams
    ensures IsLast(channels, i) && channels[i].name == n
  {
    PrunedNames(local, channels, kept, model, field, n);
    var k :| 0 <= k < |channels| && Names(channels)[k] == n;
    i := LastOf(channels, k, |channels|);
  }

  lemma SurvivesIff(local: Table, channels: seq<Channel>, kept: set<Name>, model: Name, field: Field)
    requires forall i | IsLast(channels, i) :: channels[i].name in kept <==> DiffersSomewhere(local, channels[i])
    ensures Survives(PrunedItem(Entry(local, channels, model, field), kept)) <==>
            exists i :: IsLast(channels, i) && SpeaksAt(local, channels[i], model, field)
  {
    var columns := PrunedItem(Entry(local, channels, model, field), kept).upstreams;
    if n :| n in columns && columns[n] != SAME {
      var i := ColumnHasChannel(local, channels, kept, model, field, n);
      ColumnSpeaks(local, channels, kept, model, field, i);
    }
    if i :| IsLast(channels, i) && SpeaksAt(local, channels[i], model, field) {
      ColumnSpeaks(local, channels, kept, model, field, i);
    }
  }

  lemma IncludedAndSpeaking(local: Table, channels: seq<Channel>, model: Name, field: Field, i: nat)
    requires i < |channels| && SpeaksAt(local, channels[i], model, field)
    ensures Wanted(local, channels, model, field) <==> RealDifference(local, channels, model, field)
  {
    var current, cells := Current(local, model, field), Cells(channels, model, field);
    if RealDifference(local, channels, model, field) {
      DifferenceIsIncluded(local, channels, model, field);
    } else {
      assert !DiffersAt(local, channels[i], model, field);
      ShownIsRead(local, channels[i], model, field);
      forall k | 0 <= k < |cells| ensures !Differs(current, cells[k]) {
        DiffersIff(local, channels[k], model, field);
        assert !DiffersAt(local, channels[k], model, field);
      }
    }
  }

  /** For all inputs: a cell is listed exactly when some channel really differs there and some channel that differs
      anywhere, with a value other than null and "same", does not read "same" there. Among channels of the same name
      only the last can be the second one. */
  lemma ListedIff(d: Differences, local: Table, channels: seq<Channel>, model: Name, field: Field)
    requires Cleaned(d, local, channels)
    ensures Has(d, model, field) <==>
            && RealDifference(local, channels, model, field)
            && exists i :: IsLast(channels, i) && SpeaksAt(local, channels[i], model, field)
  {
    forall i | IsLast(channels, i)
      ensures channels[i].name in Kept(local, channels) <==> DiffersSomewhere(local, channels[i])
    {
      KeptIffDiffersSomewhere(local, channels, i);
    }
    SurvivesIff(local, channels, Kept(local, channels), model, field);
    if i :| IsLast(channels, i) && SpeaksAt(local, channels[i], model, field) {
      IncludedAndSpeaking(local, channels, model, field, i);
    }
  }

  lemma PlainDifferenceSpeaks(local: Table, channels: seq<Channel>, model: Name, field: Field, i: nat)
    requires i < |channels| && PlainInputs(local, channels) && DiffersAt(local, channels[i], model, field)
    ensures SpeaksAt(local, channels[i], model, field)
  {
  }

  /** With plain values the table lists the real differences, all of them and nothing else. */
  lemma ListsRealDifferences(d: Differences, local: Table, channels: seq<Channel>, model: Name, field: Field)
    requires DistinctNames(channels) && Cleaned(d, local, channels) && PlainInputs(local, channels)
    ensures Has(d, model, field) <==> RealDifference(local, channels, model, field)
  {
    ListedIff(d, local, channels, model, field);
    if RealDifference(local, channels, model, field) {
      var i :| 0 <= i < |channels| && DiffersAt(local, channels[i], model, field);
      PlainDifferenceSpeaks(local, channels, model, field, i);
      assert IsLast(channels, i);
    }
  }

  /** Every listed cell shows the local value, and has a column for each channel, the last of its name, that differs
      somewhere. */
  lemma ListedColumn(d: Differences, local: Table, channels: seq<Channel>, model: Name, field: Field, i: nat)
    requires Cleaned(d, local, channels) && Has(d, model, field) && IsLast(channels, i)
    ensures At(d, model, field).current == AsShown(field, RawCurrent(local, model, field))
    ensures ColumnIs(At(d, model, field), local, channels[i], model, field)
  {
    ShownIsRead(local, channels[i], model, field);
    KeptIffDiffersSomewhere(local, channels, i);
    PrunedColumn(local, channels, Kept(local, channels), model, field, i);
  }

  /** It has no other column, and its values and confidences have the same columns. */
  lemma ListedNames(d: Differences, local: Table, channels: seq<Channel>, model: Name, field: Field)
    requires Cleaned(d, local, channels) && Has(d, model, field)
    ensures At(d, model, field).upstreams.Keys == At(d, model, field).confidence.Keys
    ensures forall n | n in At(d, model, field).upstreams :: n in Names(channels)
  {
    forall n
      ensures n in At(d, model, field).upstreams <==> n in At(d, model, field).confidence
      ensures n in At(d, model, field).upstreams ==> n in Names(channels)
    {
      PrunedNames(local, channels, Kept(local, channels), model, field, n);
    }
  }

  /** A channel whose only difference is a null, or the text "same", is a real difference that is not listed. */
  lemma NullAndSameAreMissed(d: Differences, model: Name, name: Name, v: Value)
    requires v == Null || v == SAME
    requires Cleaned(d, map[ModelPrice := map[model := Float(1.0)]],
                     [Channel(name, map[ModelPrice := map[model := v]])])
    ensures RealDifference(map[ModelPrice := map[model := Float(1.0)]],
                           [Channel(name, map[ModelPrice := map[model := v]])], model, ModelPrice)
    ensures !Has(d, model, ModelPrice)
  {
    var local: Table := map[ModelPrice := map[model := Float(1.0)]];
    var ch := Channel(name, map[ModelPrice := map[model := v]]);
    assert Row(local, ModelPrice)[model] == Float(1.0) && Row(ch.data, ModelPrice)[model] == v;
    assert DiffersAt(local, [ch][0], model, ModelPrice);
    forall m, f
      ensures !(DiffersAt(local, ch, m, f) && Plain(Cell(ch.data, m, f).value))
    {
      assert Cell(ch.data, m, f).Some? ==> m == model && f == ModelPrice;
    }
    ListedIff(d, local, [ch], model, ModelPrice);
  }
}

/** Multi-key channels: ManageMultiKeys in controller/channel.go, with the key parsing and the
    saving of model/channel.go. Keys are in the newline format. */
module MultiKey {
  import opened Prelude
  import opened Text

  /** Why a key was disabled. */
  type Reason(==, !new)

  const ENABLED := 1
  const MANUALLY_DISABLED := 2
  const AUTO_DISABLED := 3

  /** The stored row: key text, number of keys, and three maps indexed by key position. */
  datatype Channel = Channel(
    key: string,
    size: int,
    status: map<int, int>,
    time: map<int, int>,
    reason: map<int, Reason>)

  function GetKeys(key: string): seq<string> {
    Parse(key, '\n')
  }

  /** What the three maps say about one key. */
  datatype Record = Record(key: string, status: int, time: Option<int>, reason: Option<Reason>)

  function Get<T>(m: map<int, T>, i: int): Option<T> {
    if i in m then Some(m[i]) else None
  }

  function RecordAt(ch: Channel, key: string, i: int): Record {
    Record(key, if i in ch.status then ch.status[i] else ENABLED, Get(ch.time, i), Get(ch.reason, i))
  }

  /** The channel as one list of records. */
  function View(ch: Channel): seq<Record> {
    var keys := GetKeys(ch.key);
    seq(|keys|, i requires 0 <= i < |keys| => RecordAt(ch, keys[i], i))
  }

  /** Maps only speak about existing keys; a stored status is never "enabled"; times and
      reasons exist only for disabled keys. */
  ghost predicate MapsOk(ch: Channel) {
    && (forall i <- ch.status :: 0 <= i < ch.size && ch.status[i] != ENABLED)
    && (forall i <- ch.time :: i in ch.status)
    && (forall i <- ch.reason :: i in ch.status)
  }

  ghost predicate Valid(ch: Channel) {
    ch.size == |GetKeys(ch.key)| && MapsOk(ch)
  }

  /** No blank lines among the keys. */
  predicate Solid(keys: seq<string>) {
    keys != [] && forall key <- keys :: key != ""
  }

  // ---------------------------------------------------------------- saving

  /** Channel.Update: an empty key text counts as "not provided", so the size comes from the
      stored text and the database write skips the column. */
  function Saved(ch: Channel, key: string, status: map<int, int>, time: map<int, int>,
                 reason: map<int, Reason>): Channel
  {
    var text := if key != "" then key else ch.key;
    var size := |GetKeys(text)|;
    Channel(text, size, map i | i in status && i < size :: status[i], time, reason)
  }

  // ---------------------------------------------------------------- actions

  /** The positions below `n` that are not dropped, in order. */
  function Survivors(n: nat, drop: set<int>): seq<int> {
    if n == 0 then []
    else Survivors(n - 1, drop) + if n - 1 in drop then [] else [n - 1]
  }

  /** The entries of `m` at the surviving positions, re-indexed from zero. */
  function Pull<T>(m: map<int, T>, survivors: seq<int>): map<int, T> {
    map j | 0 <= j < |survivors| && survivors[j] in m :: m[survivors[j]]
  }

  function Pick<T>(s: seq<T>, survivors: seq<int>): seq<T>
    requires forall j :: 0 <= j < |survivors| ==> 0 <= survivors[j] < |s|
  {
    seq(|survivors|, j requires 0 <= j < |survivors| => s[survivors[j]])
  }

  lemma {:induction false} SurvivorsInRange(n: nat, drop: set<int>)
    ensures forall i :: i in Survivors(n, drop) <==> 0 <= i < n && i !in drop
    ensures forall j, k :: 0 <= j < k < |Survivors(n, drop)| ==> Survivors(n, drop)[j] < Survivors(n, drop)[k]
  {
    if n > 0 {
      var front := Survivors(n - 1, drop);
      SurvivorsInRange(n - 1, drop);
      assert forall j :: 0 <= j < |front| ==> front[j] in front;
    }
  }

  function AutoDisabled(ch: Channel): set<int> {
    set i | i in ch.status && ch.status[i] == AUTO_DISABLED
  }

  function Remaining(keys: seq<string>, drop: set<int>): seq<string> {
    SurvivorsInRange(|keys|, drop);
    assert forall j :: 0 <= j < |Survivors(|keys|, drop)| ==> Survivors(|keys|, drop)[j] in Survivors(|keys|, drop);
    Pick(keys, Survivors(|keys|, drop))
  }

  /** Rewrite the channel without the keys at `drop`. */
  function Dropped(ch: Channel, drop: set<int>): Channel {
    var keys := GetKeys(ch.key);
    var survivors := Survivors(|keys|, drop);
    Saved(ch, Join(Remaining(keys, drop), '\n'),
          Pull(ch.status, survivors), Pull(ch.time, survivors), Pull(ch.reason, survivors))
  }

  datatype Action =
    | DisableKey(index: int)
    | EnableKey(index: int)
    | EnableAll
    | DisableAll
    | DeleteKey(index: int)
    | DeleteDisabled
    | Report(key: string, newStatus: int, now: int, why: Reason)  // a relay reports on the key it used

  /** The request is refused and nothing is written. */
  predicate Refused(ch: Channel, action: Action) {
    match action
    case DisableKey(i) => i < 0 || i >= ch.size
    case EnableKey(i) => i < 0 || i >= ch.size
    case EnableAll => false
    case DisableAll => forall i | 0 <= i < ch.size :: i in ch.status && ch.status[i] != ENABLED
    case DeleteKey(i) => i < 0 || i >= ch.size || |GetKeys(ch.key)| <= 1
    case DeleteDisabled =>
      forall i | 0 <= i < |GetKeys(ch.key)| :: i in ch.status ==> ch.status[i] != AUTO_DISABLED
    case Report(_, _, _, _) => GetKeys(ch.key) == []
  }

  /** The position of the first such key, or the length when there is none. */
  function Find(keys: seq<string>, key: string): nat {
    if keys == [] || keys[0] == key then 0 else 1 + Find(keys[1..], key)
  }

  lemma {:induction false} FindsFirst(keys: seq<string>, key: string)
    ensures Find(keys, key) <= |keys|
    ensures Find(keys, key) < |keys| ==> keys[Find(keys, key)] == key
    ensures forall j :: 0 <= j < Find(keys, key) ==> keys[j] != key
  {
    if keys != [] && keys[0] != key {
      FindsFirst(keys[1..], key);
      assert forall j :: 1 <= j < |keys| ==> keys[j] == keys[1..][j - 1];
    }
  }

  /** handlerMultiKeyUpdate: a key that is not found counts as the first. Enabling a key only deletes its status. */
  function Reported(ch: Channel, i: int, newStatus: int, now: int, why: Reason): Channel {
    if newStatus == ENABLED then ch.(status := ch.status - {i})
    else ch.(status := ch.status[i := newStatus], time := ch.time[i := now], reason := ch.reason[i := why])
  }

  function ReportIndex(keys: seq<string>, key: string): nat {
    if Find(keys, key) < |keys| then Find(keys, key) else 0
  }

  function AfterAction(ch: Channel, action: Action): Channel {
    if Refused(ch, action) then ch
    else match action
      case DisableKey(i) =>
        Saved(ch, ch.key, ch.status[i := MANUALLY_DISABLED], ch.time, ch.reason)
      case EnableKey(i) =>
        Saved(ch, ch.key, ch.status - {i}, ch.time - {i}, ch.reason - {i})
      case EnableAll => Saved(ch, ch.key, map[], map[], map[])
      case DisableAll =>
        Saved(ch, ch.key,
              ch.status + (map i | 0 <= i < ch.size && (i in ch.status ==> ch.status[i] == ENABLED) ::
                             MANUALLY_DISABLED),
              ch.time, ch.reason)
      case DeleteKey(i) => Dropped(ch, {i})
      case DeleteDisabled => Dropped(ch, AutoDisabled(ch))
      case Report(key, newStatus, now, why) =>
        Reported(ch, ReportIndex(GetKeys(ch.key), key), newStatus, now, why)
  }

  // ---------------------------------------------------------------- the record list

  function FilterRecords(records: seq<Record>): seq<Record> {
    if records == [] then []
    else
      var n := |records| - 1;
      FilterRecords(records[..n]) + if records[n].status == 3 then [] else [records[n]]
  }

  /** The same actions on a plain list of records. A status is 1 for enabled, 2 for disabled by hand and 3 for disabled
      by a relay. */
  function OnRecords(records: seq<Record>, action: Action): seq<Record> {
    match action
    case DisableKey(i) =>
      if 0 <= i < |records| then records[i := records[i].(status := 2)] else records
    case EnableKey(i) =>
      if 0 <= i < |records| then records[i := Record(records[i].key, 1, None, None)] else records
    case EnableAll =>
      seq(|records|, i requires 0 <= i < |records| => Record(records[i].key, 1, None, None))
    case DisableAll =>
      seq(|records|, i requires 0 <= i < |records| =>
        if records[i].status == 1 then records[i].(status := 2) else records[i])
    case DeleteKey(i) =>
      if 0 <= i < |records| && |records| > 1 then records[..i] + records[i + 1..] else records
    case DeleteDisabled => FilterRecords(records)
    case Report(key, newStatus, now, why) =>
      var i := FindRecord(records, key);
      if i == |records| then records else records[i := ReportRecord(key, newStatus, now, why)]
  }

  function FindRecord(records: seq<Record>, key: string): (i: nat)
    ensures i <= |records|
  {
    if records == [] || records[0].key == key then 0 else 1 + FindRecord(records[1..], key)
  }

  function ReportRecord(key: string, newStatus: int, now: int, why: Reason): Record {
    if newStatus == 1 then Record(key, 1, None, None) else Record(key, newStatus, Some(now), Some(why))
  }

  /** When an action on the row is the same action on the list of records. A deletion must leave keys whose first
      and last are not blank, so that they are read back. A report must name a key of the channel, or change
      nothing at the first; and it must not enable a key that has a time or a reason. */
  predicate Faithful(ch: Channel, action: Action) {
    var keys := GetKeys(ch.key);
    match action
    case DeleteKey(i) => Refused(ch, action) || EndsNonEmpty(Remaining(keys, {i}))
    case DeleteDisabled => Refused(ch, action) || EndsNonEmpty(Remaining(keys, AutoDisabled(ch)))
    case Report(key, newStatus, now, why) =>
      var i := Find(keys, key);
      if keys == [] then true
      else if i < |keys| then newStatus != ENABLED || (i !in ch.time && i !in ch.reason)
      else if newStatus == ENABLED then 0 !in ch.status
      else RecordAt(ch, keys[0], 0) == Record(keys[0], newStatus, Some(now), Some(why))
    case _ => true
  }

  // ---------------------------------------------------------------- refinement

  predicate StatusAction(action: Action) {
    !action.DeleteKey? && !action.DeleteDisabled? && !action.Report?
  }

  /** Which requests are refused, in terms of the records: an index out of range, nothing to disable or to delete, and
      the deletion of the only key. */
  lemma RefusedIff(ch: Channel, action: Action)
    requires Valid(ch)
    ensures var records := View(ch);
            Refused(ch, action) <==>
              match action
              case DisableKey(i) => !(0 <= i < |records|)
              case EnableKey(i) => !(0 <= i < |records|)
              case EnableAll => false
              case DisableAll => forall i | 0 <= i < |records| :: records[i].status != 1
              case DeleteKey(i) => !(0 <= i < |records|) || |records| == 1
              case DeleteDisabled => forall i | 0 <= i < |records| :: records[i].status != 3
              case Report(_, _, _, _) => records == []
  {
    var records := View(ch);
    assert forall i | 0 <= i < ch.size :: records[i].status == if i in ch.status then ch.status[i] else ENABLED;
  }

  /** Saving keeps the stored text when none is given, counts its keys, and drops the statuses behind the last. */
  lemma SavedIs(ch: Channel, key: string, status: map<int, int>, time: map<int, int>, reason: map<int, Reason>, i: int)
    ensures var ch' := Saved(ch, key, status, time, reason);
            && ch'.key == (if key == "" then ch.key else key) && ch'.size == |GetKeys(ch'.key)|
            && (i in ch'.status <==> i in status && i < |GetKeys(ch'.key)|)
            && (i in ch'.status ==> ch'.status[i] == status[i])
            && ch'.time == time && ch'.reason == reason
  {
  }

  lemma StatusActionsKeepValid(ch: Channel, action: Action)
    requires Valid(ch) && StatusAction(action)
    ensures Valid(AfterAction(ch, action)) && AfterAction(ch, action).key == ch.key
  {
  }

  lemma StatusActionsRefine(ch: Channel, action: Action)
    requires Valid(ch) && StatusAction(action)
    ensures View(AfterAction(ch, action)) == OnRecords(View(ch), action)
  {
    StatusActionsKeepValid(ch, action);
    var ch' := AfterAction(ch, action);
    var want := OnRecords(View(ch), action);
    assert |View(ch')| == |want|;
    forall i | 0 <= i < |want| ensures View(ch')[i] == want[i] {}
  }

  // ---------------------------------------------------------------- reports

  lemma {:induction false} FindRecordIsFind(records: seq<Record>, keys: seq<string>, key: string)
    requires |records| == |keys| && forall i :: 0 <= i < |keys| ==> records[i].key == keys[i]
    ensures FindRecord(records, key) == Find(keys, key)
  {
    if keys != [] { FindRecordIsFind(records[1..], keys[1..], key); }
  }

  /** What a report makes of the row: it changes the record at one position. */
  lemma ReportedView(ch: Channel, i: nat, newStatus: int, now: int, why: Reason)
    requires i < |GetKeys(ch.key)|
    ensures var ch' := Reported(ch, i, newStatus, now, why);
            && |View(ch')| == |View(ch)|
            && (forall j | 0 <= j < |View(ch)| && j != i :: View(ch')[j] == View(ch)[j])
            && View(ch')[i] == if newStatus == ENABLED then View(ch)[i].(status := ENABLED)
                               else Record(View(ch)[i].key, newStatus, Some(now), Some(why))
  {
  }

  lemma ReportRefinesIff(ch: Channel, key: string, newStatus: int, now: int, why: Reason)
    requires Valid(ch)
    ensures var action := Report(key, newStatus, now, why);
            View(AfterAction(ch, action)) == OnRecords(View(ch), action) <==> Faithful(ch, action)
  {
    var keys, records, action := GetKeys(ch.key), View(ch), Report(key, newStatus, now, why);
    FindsFirst(keys, key);
    FindRecordIsFind(records, keys, key);
    if keys != [] {
      var i, ch', want := ReportIndex(keys, key), AfterAction(ch, action), OnRecords(records, action);
      ReportedView(ch, i, newStatus, now, why);
      assert View(ch') == want <==> View(ch')[i] == want[i];
      assert records[i] == RecordAt(ch, keys[i], i);
    }
  }

  /** Enabling a key leaves its time and reason behind, so it keeps the row consistent only when there are none;
      every other report does. */
  lemma ReportKeepsValidIff(ch: Channel, key: string, newStatus: int, now: int, why: Reason)
    requires Valid(ch)
    ensures var action, i := Report(key, newStatus, now, why), ReportIndex(GetKeys(ch.key), key);
            && (Valid(AfterAction(ch, action)) <==>
                  GetKeys(ch.key) == [] || newStatus != ENABLED || (i !in ch.time && i !in ch.reason))
            && (Faithful(ch, action) ==> Valid(AfterAction(ch, action)))
  {
    FindsFirst(GetKeys(ch.key), key);
  }

  // ---------------------------------------------------------------- deletions

  lemma {:induction false} SurvivorsOfOne(n: nat, i: int)
    requires 0 <= i
    ensures |Survivors(n, {i})| == if i < n then n - 1 else n
    ensures forall j :: 0 <= j < |Survivors(n, {i})| ==> Survivors(n, {i})[j] == if j < i then j else j + 1
  {
    if n > 0 { SurvivorsOfOne(n - 1, i); }
  }

  lemma {:induction false} PickIsFilter(records: seq<Record>, n: nat, drop: set<int>)
    requires n <= |records|
    requires forall i :: 0 <= i < n ==> (i in drop <==> records[i].status == AUTO_DISABLED)
    requires forall j :: 0 <= j < |Survivors(n, drop)| ==> 0 <= Survivors(n, drop)[j] < |records|
    ensures Pick(records, Survivors(n, drop)) == FilterRecords(records[..n])
  {
    if n > 0 {
      var front := Survivors(n - 1, drop);
      assert forall j :: 0 <= j < |front| ==> front[j] == Survivors(n, drop)[j];
      PickIsFilter(records, n - 1, drop);
      assert records[..n][..n - 1] == records[..n - 1];
      assert n - 1 !in drop ==> Pick(records, front + [n - 1]) == Pick(records, front) + [records[n - 1]];
    }
  }

  lemma RemainingAtomic(key: string, drop: set<int>)
    ensures Atomic(Remaining(GetKeys(key), drop), '\n')
  {
    var keys := GetKeys(key);
    var left := Remaining(keys, drop);
    SurvivorsInRange(|keys|, drop);
    forall j | 0 <= j < |left| ensures '\n' !in left[j] {
      assert Survivors(|keys|, drop)[j] in Survivors(|keys|, drop);
      assert left[j] in keys;
    }
  }

  /** Dropping keys leaves the remaining ones in the text exactly when the first and the last
      of them are not blank; in particular, at least one must remain. */
  lemma DropKeepsKeysIff(ch: Channel, drop: set<int>, i: int)
    requires Valid(ch) && 0 <= i < ch.size && i in drop
    ensures GetKeys(Dropped(ch, drop).key) == Remaining(GetKeys(ch.key), drop) <==>
            EndsNonEmpty(Remaining(GetKeys(ch.key), drop))
  {
    var left := Remaining(GetKeys(ch.key), drop);
    RemainingAtomic(ch.key, drop);
    FewerSurvivors(ch.size, drop, i);
    if left != [] {
      JoinEnds(left, '\n');
      ParseJoin(left, '\n');
    }
  }

  lemma PullAt<T>(m: map<int, T>, survivors: seq<int>, j: int)
    requires 0 <= j < |survivors|
    ensures Get(Pull(m, survivors), j) == Get(m, survivors[j])
  {
  }

  /** The maps of the rewritten channel at position `j`. */
  lemma DroppedMaps(ch: Channel, drop: set<int>, j: int)
    requires ch.size == |GetKeys(ch.key)|
    requires 0 <= j < |Survivors(ch.size, drop)| && j < Dropped(ch, drop).size
    ensures var i, ch' := Survivors(ch.size, drop)[j], Dropped(ch, drop);
            && Get(ch'.status, j) == Get(ch.status, i)
            && Get(ch'.time, j) == Get(ch.time, i)
            && Get(ch'.reason, j) == Get(ch.reason, i)
  {
    PullAt(ch.status, Survivors(ch.size, drop), j);
    PullAt(ch.time, Survivors(ch.size, drop), j);
    PullAt(ch.reason, Survivors(ch.size, drop), j);
  }

  lemma RecordMoves(ch: Channel, ch': Channel, key: string, i: int, j: int)
    requires Get(ch'.status, j) == Get(ch.status, i)
    requires Get(ch'.time, j) == Get(ch.time, i) && Get(ch'.reason, j) == Get(ch.reason, i)
    ensures RecordAt(ch', key, j) == RecordAt(ch, key, i)
  {
  }

  /** Then every surviving key keeps its record under its new index. */
  lemma DropKeepsRecord(ch: Channel, drop: set<int>, j: int)
    requires Valid(ch) && GetKeys(Dropped(ch, drop).key) == Remaining(GetKeys(ch.key), drop)
    requires 0 <= j < |Survivors(ch.size, drop)|
    ensures 0 <= Survivors(ch.size, drop)[j] < ch.size
    ensures View(Dropped(ch, drop))[j] == View(ch)[Survivors(ch.size, drop)[j]]
  {
    var survivors := Survivors(ch.size, drop);
    SurvivorsInRange(ch.size, drop);
    assert survivors[j] in survivors;
    DroppedMaps(ch, drop, j);
    RecordMoves(ch, Dropped(ch, drop), GetKeys(ch.key)[survivors[j]], survivors[j], j);
  }

  lemma DropKeepsRecords(ch: Channel, drop: set<int>)
    requires Valid(ch) && GetKeys(Dropped(ch, drop).key) == Remaining(GetKeys(ch.key), drop)
    ensures var survivors := Survivors(ch.size, drop);
            && (forall j :: 0 <= j < |survivors| ==> 0 <= survivors[j] < |View(ch)|)
            && View(Dropped(ch, drop)) == Pick(View(ch), survivors)
  {
    var survivors := Survivors(ch.size, drop);
    forall j | 0 <= j < |survivors|
      ensures 0 <= survivors[j] < |View(ch)| && View(Dropped(ch, drop))[j] == View(ch)[survivors[j]]
    {
      DropKeepsRecord(ch, drop, j);
    }
    assert |View(Dropped(ch, drop))| == |survivors|;
  }

  lemma PullKeys<T>(m: map<int, T>, survivors: seq<int>, i: int)
    ensures i in Pull(m, survivors) <==> 0 <= i < |survivors| && survivors[i] in m
    ensures i in Pull(m, survivors) ==> Pull(m, survivors)[i] == m[survivors[i]]
  {
  }

  /** Whatever happens to the keys, the three maps stay consistent. */
  lemma DropKeepsValid(ch: Channel, drop: set<int>)
    requires Valid(ch)
    requires GetKeys(Dropped(ch, drop).key) != [] && |Survivors(ch.size, drop)| <= |GetKeys(Dropped(ch, drop).key)|
    ensures Valid(Dropped(ch, drop))
  {
    var ch', survivors := Dropped(ch, drop), Survivors(ch.size, drop);
    forall i
      ensures i in ch'.status ==> 0 <= i < ch'.size && ch'.status[i] != ENABLED
      ensures i in ch'.time ==> i in ch'.status
      ensures i in ch'.reason ==> i in ch'.status
    {
      PullKeys(ch.status, survivors, i);
      PullKeys(ch.time, survivors, i);
      PullKeys(ch.reason, survivors, i);
    }
  }

  lemma {:induction false} FewerSurvivors(n: nat, drop: set<int>, i: int)
    ensures |Survivors(n, drop)| <= n
    ensures 0 <= i < n && i in drop ==> |Survivors(n, drop)| < n
  {
    if n > 0 { FewerSurvivors(n - 1, drop, i); }
  }

  lemma {:induction false} NoneDropped(n: nat, drop: set<int>)
    requires forall i :: 0 <= i < n ==> i !in drop
    ensures |Survivors(n, drop)| == n
  {
    if n > 0 { NoneDropped(n - 1, drop); }
  }

  lemma AnyDropped(ch: Channel)
    ensures |Survivors(|GetKeys(ch.key)|, AutoDisabled(ch))| == |GetKeys(ch.key)| <==> Refused(ch, DeleteDisabled)
  {
    var n, drop := |GetKeys(ch.key)|, AutoDisabled(ch);
    if Refused(ch, DeleteDisabled) {
      NoneDropped(n, drop);
    } else {
      var i :| 0 <= i < n && i in ch.status && ch.status[i] == AUTO_DISABLED;
      FewerSurvivors(n, drop, i);
    }
  }

  /** The keys of the list of records. */
  lemma ViewKeys(ch: Channel, records: seq<Record>)
    ensures View(ch) == records ==> |GetKeys(ch.key)| == |records| &&
                                    forall i :: 0 <= i < |records| ==> GetKeys(ch.key)[i] == records[i].key
  {
  }

  /** Dropping keys drops their records and no others, if and only if the first and the last of the remaining keys
      are not blank; and then the maps stay consistent. */
  lemma DropRefinesIff(ch: Channel, drop: set<int>, i: int)
    requires Valid(ch) && 0 <= i < ch.size && i in drop
    ensures forall j :: 0 <= j < |Survivors(ch.size, drop)| ==> 0 <= Survivors(ch.size, drop)[j] < |View(ch)|
    ensures View(Dropped(ch, drop)) == Pick(View(ch), Survivors(ch.size, drop)) <==>
            EndsNonEmpty(Remaining(GetKeys(ch.key), drop))
    ensures EndsNonEmpty(Remaining(GetKeys(ch.key), drop)) ==> Valid(Dropped(ch, drop))
  {
    var keys, survivors := GetKeys(ch.key), Survivors(ch.size, drop);
    DropKeepsKeysIff(ch, drop, i);
    SurvivorsInRange(ch.size, drop);
    assert forall j :: 0 <= j < |survivors| ==> survivors[j] in survivors;
    if EndsNonEmpty(Remaining(keys, drop)) {
      DropKeepsRecords(ch, drop);
      DropKeepsValid(ch, drop);
    } else {
      ViewKeys(Dropped(ch, drop), Pick(View(ch), survivors));
      PickedKeys(ch, survivors);
    }
  }

  lemma PickedKeys(ch: Channel, survivors: seq<int>)
    requires forall j :: 0 <= j < |survivors| ==> 0 <= survivors[j] < |View(ch)|
    ensures forall j :: 0 <= j < |survivors| ==>
              Pick(View(ch), survivors)[j].key == Pick(GetKeys(ch.key), survivors)[j]
  {
  }

  lemma DeleteKeyRefinesIff(ch: Channel, i: int)
    requires Valid(ch)
    ensures View(AfterAction(ch, DeleteKey(i))) == OnRecords(View(ch), DeleteKey(i)) <==> Faithful(ch, DeleteKey(i))
    ensures Faithful(ch, DeleteKey(i)) ==> Valid(AfterAction(ch, DeleteKey(i)))
  {
    if 0 <= i < ch.size && ch.size > 1 {
      SurvivorsOfOne(ch.size, i);
      DropRefinesIff(ch, {i}, i);
      PickAllBut(View(ch), Survivors(ch.size, {i}), i);
    }
  }

  lemma PickAllBut<T>(s: seq<T>, survivors: seq<int>, i: nat)
    requires i < |s| && |survivors| == |s| - 1
    requires forall j :: 0 <= j < |survivors| ==> survivors[j] == if j < i then j else j + 1
    ensures Pick(s, survivors) == s[..i] + s[i + 1..]
  {
  }

  lemma AutoSurvivors(ch: Channel)
    requires Valid(ch)
    ensures var survivors := Survivors(ch.size, AutoDisabled(ch));
            && (forall j :: 0 <= j < |survivors| ==> 0 <= survivors[j] < |View(ch)|)
            && Pick(View(ch), survivors) == FilterRecords(View(ch))
  {
    var records, drop := View(ch), AutoDisabled(ch);
    var survivors := Survivors(ch.size, drop);
    SurvivorsInRange(ch.size, drop);
    assert forall j :: 0 <= j < |survivors| ==> survivors[j] in survivors;
    assert records[..ch.size] == records;
    PickIsFilter(records, ch.size, drop);
  }

  lemma {:induction false} NothingToFilter(records: seq<Record>)
    requires forall i :: 0 <= i < |records| ==> records[i].status != AUTO_DISABLED
    ensures FilterRecords(records) == records
  {
    if records != [] {
      NothingToFilter(records[..|records| - 1]);
      assert records == records[..|records| - 1] + [records[|records| - 1]];
    }
  }

  lemma DeleteDisabledRefinesIff(ch: Channel)
    requires Valid(ch)
    ensures View(AfterAction(ch, DeleteDisabled)) == OnRecords(View(ch), DeleteDisabled) <==>
            Faithful(ch, DeleteDisabled)
    ensures Faithful(ch, DeleteDisabled) ==> Valid(AfterAction(ch, DeleteDisabled))
  {
    if Refused(ch, DeleteDisabled) {
      NothingToFilter(View(ch));
    } else {
      var i :| 0 <= i < ch.size && i in ch.status && ch.status[i] == AUTO_DISABLED;
      AutoSurvivors(ch);
      DropRefinesIff(ch, AutoDisabled(ch), i);
    }
  }

  ghost predicate AllAutoDisabled(ch: Channel) {
    ch.size > 0 && forall i :: 0 <= i < ch.size ==> i in ch.status && ch.status[i] == AUTO_DISABLED
  }

  lemma {:induction false} AllDropped(n: nat, drop: set<int>)
    requires forall i :: 0 <= i < n ==> i in drop
    ensures Survivors(n, drop) == []
  {
    if n > 0 { AllDropped(n - 1, drop); }
  }

  lemma DroppingAll(ch: Channel, drop: set<int>)
    requires ch.size == |GetKeys(ch.key)| && Survivors(ch.size, drop) == []
    ensures Dropped(ch, drop) == Channel(ch.key, ch.size, map[], map[], map[])
  {
  }

  lemma EnabledView(ch: Channel)
    requires ch.size == |GetKeys(ch.key)|
    ensures View(Channel(ch.key, ch.size, map[], map[], map[])) == OnRecords(View(ch), EnableAll)
  {
  }

  lemma {:induction false} AllFiltered(records: seq<Record>)
    requires forall i :: 0 <= i < |records| ==> records[i].status == AUTO_DISABLED
    ensures FilterRecords(records) == []
  {
    if records != [] { AllFiltered(records[..|records| - 1]); }
  }

  /** When every key is auto-disabled the request succeeds, deletes no key, and enables them
      all: the empty key text is taken as "not provided" while the emptied maps are saved. */
  lemma DeletingAllEnablesAll(ch: Channel)
    requires Valid(ch) && AllAutoDisabled(ch)
    ensures !Refused(ch, DeleteDisabled)
    ensures View(AfterAction(ch, DeleteDisabled)) == OnRecords(View(ch), EnableAll)
    ensures View(AfterAction(ch, DeleteDisabled)) != OnRecords(View(ch), DeleteDisabled)
    ensures Valid(AfterAction(ch, DeleteDisabled)) && AfterAction(ch, DeleteDisabled).key == ch.key
  {
    assert 0 in ch.status && ch.status[0] == AUTO_DISABLED;
    assert !Refused(ch, DeleteDisabled);
    AllDropped(ch.size, AutoDisabled(ch));
    DroppingAll(ch, AutoDisabled(ch));
    EnabledView(ch);
    AllFiltered(View(ch));
  }

  /** Every action on every consistent row refines the same action on the list of records exactly when it is
      faithful, and then keeps the row consistent. */
  lemma ActionRefinesIff(ch: Channel, action: Action)
    requires Valid(ch)
    ensures View(AfterAction(ch, action)) == OnRecords(View(ch), action) <==> Faithful(ch, action)
    ensures Faithful(ch, action) ==> Valid(AfterAction(ch, action))
  {
    match action
    case DeleteKey(i) => DeleteKeyRefinesIff(ch, i);
    case DeleteDisabled => DeleteDisabledRefinesIff(ch);
    case Report(key, newStatus, now, why) =>
      ReportRefinesIff(ch, key, newStatus, now, why);
      ReportKeepsValidIff(ch, key, newStatus, now, why);
    case _ =>
      StatusActionsRefine(ch, action);
      StatusActionsKeepValid(ch, action);
  }

  // ---------------------------------------------------------------- channels without blank keys

  /** As AddChannel leaves it and as appending keeps it. */
  ghost predicate Good(ch: Channel) {
    Valid(ch) && Solid(GetKeys(ch.key))
  }

  lemma RemainingSolid(ch: Channel, drop: set<int>)
    requires Good(ch)
    ensures Remaining(GetKeys(ch.key), drop) != [] ==>
              Solid(Remaining(GetKeys(ch.key), drop)) && EndsNonEmpty(Remaining(GetKeys(ch.key), drop))
  {
    var keys := GetKeys(ch.key);
    var left := Remaining(keys, drop);
    SurvivorsInRange(|keys|, drop);
    forall j | 0 <= j < |left| ensures left[j] != "" {
      assert Survivors(|keys|, drop)[j] in Survivors(|keys|, drop);
      assert left[j] in keys;
    }
  }

  /** Without blank keys the only unfaithful deletion is that of all keys. */
  lemma SolidDeletionsAreFaithful(ch: Channel, action: Action)
    requires Good(ch) && (action.DeleteKey? || action.DeleteDisabled?)
    ensures Faithful(ch, action) <==> !(action.DeleteDisabled? && AllAutoDisabled(ch))
  {
    if action.DeleteKey? {
      if 0 <= action.index < ch.size && ch.size > 1 {
        SurvivorsOfOne(ch.size, action.index);
        RemainingSolid(ch, {action.index});
      }
    } else if AllAutoDisabled(ch) {
      AllDropped(ch.size, AutoDisabled(ch));
      assert 0 in ch.status && ch.status[0] == AUTO_DISABLED;
    } else if !Refused(ch, action) {
      var k :| 0 <= k < ch.size && !(k in ch.status && ch.status[k] == AUTO_DISABLED);
      SurvivorsInRange(ch.size, AutoDisabled(ch));
      assert k in Survivors(ch.size, AutoDisabled(ch));
      RemainingSolid(ch, AutoDisabled(ch));
    }
  }

  /** No action brings a blank key in, and all keep the row consistent but a report that enables a key with a time. */
  lemma ActionKeepsGood(ch: Channel, action: Action)
    requires Good(ch) && (action.Report? ==> Faithful(ch, action))
    ensures Good(AfterAction(ch, action))
  {
    ActionRefinesIff(ch, action);
    match action
    case DeleteKey(i) =>
      SolidDeletionsAreFaithful(ch, action);
      if !Refused(ch, action) { DropKeepsSolid(ch, {i}, i); }
    case DeleteDisabled =>
      SolidDeletionsAreFaithful(ch, action);
      if AllAutoDisabled(ch) {
        DeletingAllEnablesAll(ch);
      } else if !Refused(ch, action) {
        var i :| 0 <= i < ch.size && i in ch.status && ch.status[i] == AUTO_DISABLED;
        DropKeepsSolid(ch, AutoDisabled(ch), i);
      }
    case Report(_, _, _, _) =>
    case _ => StatusActionsKeepValid(ch, action);
  }

  lemma DropKeepsSolid(ch: Channel, drop: set<int>, i: int)
    requires Good(ch) && 0 <= i < ch.size && i in drop && EndsNonEmpty(Remaining(GetKeys(ch.key), drop))
    ensures Solid(GetKeys(Dropped(ch, drop).key))
  {
    DropKeepsKeysIff(ch, drop, i);
    RemainingSolid(ch, drop);
  }

  // ---------------------------------------------------------------- runs

  function Play(ch: Channel, actions: seq<Action>): Channel {
    if actions == [] then ch else AfterAction(Play(ch, actions[..|actions| - 1]), actions[|actions| - 1])
  }

  function PlayRecords(records: seq<Record>, actions: seq<Action>): seq<Record> {
    if actions == [] then records
    else OnRecords(PlayRecords(records, actions[..|actions| - 1]), actions[|actions| - 1])
  }

  predicate FaithfulRun(ch: Channel, actions: seq<Action>) {
    actions == [] ||
    (var front := actions[..|actions| - 1];
     FaithfulRun(ch, front) && Faithful(Play(ch, front), actions[|actions| - 1]))
  }

  /** Over every run of faithful actions the row stays consistent and is the record list that the same run produces on a
      plain list. */
  lemma {:induction false} RunRefines(ch: Channel, actions: seq<Action>)
    requires Valid(ch) && FaithfulRun(ch, actions)
    ensures Valid(Play(ch, actions)) && View(Play(ch, actions)) == PlayRecords(View(ch), actions)
  {
    if actions != [] {
      var n := |actions| - 1;
      RunRefines(ch, actions[..n]);
      ActionRefinesIff(Play(ch, actions[..n]), actions[n]);
    }
  }

  /** Over every run of the actions of an administrator a channel without blank keys stays one, and consistent. */
  lemma {:induction false} RunKeepsGood(ch: Channel, actions: seq<Action>)
    requires Good(ch) && forall i :: 0 <= i < |actions| ==> !actions[i].Report?
    ensures Good(Play(ch, actions))
  {
    if actions != [] {
      var n := |actions| - 1;
      RunKeepsGood(ch, actions[..n]);
      ActionKeepsGood(Play(ch, actions[..n]), actions[n]);
    }
  }

  // ---------------------------------------------------------------- the handler

  function Put<T>(m: map<int, T>, j: int, from: map<int, T>, i: int): map<int, T> {
    if i in from then m[j := from[i]] else m
  }

  lemma PullNext<T>(m: map<int, T>, survivors: seq<int>, i: int)
    ensures Pull(m, survivors + [i]) == Put(Pull(m, survivors), |survivors|, m, i)
  {
    var next := survivors + [i];
    assert forall j :: 0 <= j < |survivors| ==> next[j] == survivors[j];
    assert next[|survivors|] == i;
  }

  /** The key list and the three maps that a delete action builds. */
  datatype Parts = Parts(keys: seq<string>, status: map<int, int>, time: map<int, int>, reason: map<int, Reason>)

  function Carried(ch: Channel, keys: seq<string>, p: Parts, i: int): Parts
    requires 0 <= i < |keys|
  {
    var j := |p.keys|;
    Parts(p.keys + [keys[i]],
          Put(p.status, j, ch.status, i), Put(p.time, j, ch.time, i), Put(p.reason, j, ch.reason, i))
  }

  function Rebuild(ch: Channel, keys: seq<string>, n: nat, drop: set<int>): Parts
    requires n <= |keys|
  {
    if n == 0 then Parts([], map[], map[], map[])
    else
      var p := Rebuild(ch, keys, n - 1, drop);
      if n - 1 in drop then p else Carried(ch, keys, p, n - 1)
  }

  /** One of the three maps, built position by position. */
  function Gather<T>(m: map<int, T>, survivors: seq<int>): map<int, T> {
    if survivors == [] then map[]
    else
      var n := |survivors| - 1;
      Put(Gather(m, survivors[..n]), n, m, survivors[n])
  }

  lemma {:induction false} GatherIsPull<T>(m: map<int, T>, survivors: seq<int>)
    ensures Gather(m, survivors) == Pull(m, survivors)
  {
    if survivors != [] {
      var n := |survivors| - 1;
      GatherIsPull(m, survivors[..n]);
      assert survivors == survivors[..n] + [survivors[n]];
      PullNext(m, survivors[..n], survivors[n]);
    }
  }

  lemma GatherNext<T>(m: map<int, T>, survivors: seq<int>, i: int)
    ensures Gather(m, survivors + [i]) == Put(Gather(m, survivors), |survivors|, m, i)
  {
    assert (survivors + [i])[..|survivors|] == survivors;
  }

  ghost predicate Gathered(ch: Channel, p: Parts, survivors: seq<int>) {
    && |p.keys| == |survivors|
    && p.status == Gather(ch.status, survivors)
    && p.time == Gather(ch.time, survivors)
    && p.reason == Gather(ch.reason, survivors)
  }

  lemma CarriedGathers(ch: Channel, keys: seq<string>, p: Parts, survivors: seq<int>, i: int)
    requires 0 <= i < |keys| && Gathered(ch, p, survivors)
    ensures Gathered(ch, Carried(ch, keys, p, i), survivors + [i])
  {
    GatherNext(ch.status, survivors, i);
    GatherNext(ch.time, survivors, i);
    GatherNext(ch.reason, survivors, i);
  }

  lemma {:induction false} RebuildGathers(ch: Channel, keys: seq<string>, n: nat, drop: set<int>)
    requires n <= |keys|
    ensures Gathered(ch, Rebuild(ch, keys, n, drop), Survivors(n, drop))
  {
    if n > 0 {
      RebuildGathers(ch, keys, n - 1, drop);
      if n - 1 in drop {
        assert Survivors(n, drop) == Survivors(n - 1, drop);
      } else {
        CarriedGathers(ch, keys, Rebuild(ch, keys, n - 1, drop), Survivors(n - 1, drop), n - 1);
      }
    }
  }

  lemma {:induction false} RebuildKeys(ch: Channel, keys: seq<string>, n: nat, drop: set<int>)
    requires n <= |keys|
    ensures |Rebuild(ch, keys, n, drop).keys| == |Survivors(n, drop)|
    ensures forall j :: 0 <= j < |Survivors(n, drop)| ==>
              0 <= Survivors(n, drop)[j] < n && Rebuild(ch, keys, n, drop).keys[j] == keys[Survivors(n, drop)[j]]
  {
    if n > 0 { RebuildKeys(ch, keys, n - 1, drop); }
  }

  /** What a delete action builds is what the rewritten channel holds. */
  lemma RebuildIsDropped(ch: Channel, drop: set<int>)
    ensures var keys := GetKeys(ch.key);
            var p := Rebuild(ch, keys, |keys|, drop);
            && p.keys == Remaining(keys, drop)
            && Saved(ch, Join(p.keys, '\n'), p.status, p.time, p.reason) == Dropped(ch, drop)
  {
    var keys := GetKeys(ch.key);
    RebuildGathers(ch, keys, |keys|, drop);
    GatherIsPull(ch.status, Survivors(|keys|, drop));
    GatherIsPull(ch.time, Survivors(|keys|, drop));
    GatherIsPull(ch.reason, Survivors(|keys|, drop));
    RebuildKeys(ch, keys, |keys|, drop);
    assert Rebuild(ch, keys, |keys|, drop).keys == Remaining(keys, drop);
  }

  /** The rebuilding loop of delete_key. */
  method AllBut(ch: Channel, keys: seq<string>, index: int) returns (p: Parts)
    requires MapsOk(ch)
    ensures p == Rebuild(ch, keys, |keys|, {index})
  {
    var newIndex := 0;
    p := Parts([], map[], map[], map[]);
    for i := 0 to |keys|
      invariant newIndex == |p.keys|
      invariant p == Rebuild(ch, keys, i, {index})
    {
      if i == index {
        continue;
      }
      var status, time, reason := p.status, p.time, p.reason;
      if i in ch.status && ch.status[i] != ENABLED {
        status := status[newIndex := ch.status[i]];
      }
      if i in ch.time {
        time := time[newIndex := ch.time[i]];
      }
      if i in ch.reason {
        reason := reason[newIndex := ch.reason[i]];
      }
      p := Parts(p.keys + [keys[i]], status, time, reason);
      newIndex := newIndex + 1;
    }
  }

  /** The rebuilding loop of delete_disabled_keys. */
  method NotAutoDisabled(ch: Channel, keys: seq<string>) returns (p: Parts, deleted: nat)
    requires MapsOk(ch)
    ensures p == Rebuild(ch, keys, |keys|, AutoDisabled(ch))
    ensures deleted == |keys| - |p.keys|
  {
    var newIndex := 0;
    p, deleted := Parts([], map[], map[], map[]), 0;
    for i := 0 to |keys|
      invariant newIndex == |p.keys|
      invariant p == Rebuild(ch, keys, i, AutoDisabled(ch))
      invariant deleted == i - newIndex
    {
      var current := if i in ch.status then ch.status[i] else ENABLED;
      if current == AUTO_DISABLED {
        deleted := deleted + 1;
      } else {
        var status, time, reason := p.status, p.time, p.reason;
        if current != ENABLED {
          status := status[newIndex := current];
          if i in ch.time {
            time := time[newIndex := ch.time[i]];
          }
          if i in ch.reason {
            reason := reason[newIndex := ch.reason[i]];
          }
        }
        p := Parts(p.keys + [keys[i]], status, time, reason);
        newIndex := newIndex + 1;
      }
    }
  }

  /** The loop of disable_all_keys. */
  method DisableEnabled(status: map<int, int>, size: nat) returns (next: map<int, int>, disabled: nat)
    ensures next == status + map k | 0 <= k < size && (k in status ==> status[k] == ENABLED) :: MANUALLY_DISABLED
    ensures disabled == 0 <==> forall k | 0 <= k < size :: k in status && status[k] != ENABLED
  {
    next, disabled := status, 0;
    for i := 0 to size
      invariant next == status + map k | 0 <= k < i && (k in status ==> status[k] == ENABLED) :: MANUALLY_DISABLED
      invariant disabled == 0 <==> forall k | 0 <= k < i :: k in status && status[k] != ENABLED
    {
      if i !in next || next[i] == ENABLED {
        next := next[i := MANUALLY_DISABLED];
        disabled := disabled + 1;
      }
    }
  }

  /** The search loop of handlerMultiKeyUpdate. */
  method FindKey(keys: seq<string>, key: string) returns (keyIndex: nat)
    ensures keyIndex == ReportIndex(keys, key)
  {
    keyIndex := 0;
    for i := 0 to |keys|
      invariant Find(keys, key) == i + Find(keys[i..], key)
      invariant keyIndex == 0
    {
      if keys[i] == key {
        keyIndex := i;
        break;
      }
      assert keys[i..][1..] == keys[i + 1..];
    }
    FindsFirst(keys, key);
  }

  lemma Member<T>(s: set<T>) returns (x: T)
    requires s != {}
    ensures x in s
  {
    x :| x in s;
  }

  /** The channel row as ManageMultiKeys updates it. */
  class Row {
    var key: string
    var size: int
    var status: map<int, int>
    var time: map<int, int>
    var reason: map<int, Reason>

    function Now(): Channel
      reads this
    {
      Channel(key, size, status, time, reason)
    }

    method Update(newKey: string)
      modifies this
      ensures Now() == Saved(old(Now()), newKey, old(status), old(time), old(reason))
    {
      if newKey != "" {
        key := newKey;
      }
      size := |GetKeys(key)|;
      var pending := status.Keys;
      while pending != {}
        invariant pending <= status.Keys
        invariant status == map i | i in old(status) && (i in pending || i < size) :: old(status)[i]
        invariant key == (if newKey != "" then newKey else old(key)) && size == |GetKeys(key)|
        invariant time == old(time) && reason == old(reason)
        decreases pending
      {
        ghost var some := Member(pending);
        var i :| i in pending;
        pending := pending - {i};
        if i >= size {
          status := status - {i};
        }
      }
    }

    method DisableKey(index: Option<int>) returns (ok: bool)
      requires Valid(Now())
      modifies this
      ensures ok <==> index.Some? && !Refused(old(Now()), Action.DisableKey(index.value))
      ensures Now() == if ok then AfterAction(old(Now()), Action.DisableKey(index.value)) else old(Now())
    {
      if index.None? || index.value < 0 || index.value >= size {
        return false;
      }
      status := status[index.value := MANUALLY_DISABLED];
      Update(key);
      return true;
    }

    method EnableKey(index: Option<int>) returns (ok: bool)
      requires Valid(Now())
      modifies this
      ensures ok <==> index.Some? && !Refused(old(Now()), Action.EnableKey(index.value))
      ensures Now() == if ok then AfterAction(old(Now()), Action.EnableKey(index.value)) else old(Now())
    {
      if index.None? || index.value < 0 || index.value >= size {
        return false;
      }
      status, time, reason := status - {index.value}, time - {index.value}, reason - {index.value};
      Update(key);
      return true;
    }

    method EnableAllKeys() returns (count: nat)
      requires Valid(Now())
      modifies this
      ensures Now() == AfterAction(old(Now()), EnableAll) && count == |old(status)|
    {
      count := |status|;
      status, time, reason := map[], map[], map[];
      Update(key);
    }

    method DisableAllKeys() returns (ok: bool)
      requires Valid(Now())
      modifies this
      ensures ok <==> !Refused(old(Now()), DisableAll)
      ensures Now() == AfterAction(old(Now()), DisableAll)
    {
      var next, disabled := DisableEnabled(status, size);
      if disabled == 0 {
        return false;
      }
      status := next;
      Update(key);
      return true;
    }

    /** handlerMultiKeyUpdate, with its search for the key. */
    method ReportKey(usingKey: string, newStatus: int, now: int, why: Reason)
      modifies this
      ensures Now() == AfterAction(old(Now()), Report(usingKey, newStatus, now, why))
    {
      var keys := GetKeys(key);
      if |keys| == 0 {
        return;
      }
      var keyIndex := FindKey(keys, usingKey);
      if newStatus == ENABLED {
        status := status - {keyIndex};
      } else {
        status := status[keyIndex := newStatus];
        reason := reason[keyIndex := why];
        time := time[keyIndex := now];
      }
    }

    method DeleteOneKey(index: Option<int>) returns (ok: bool)
      requires Valid(Now())
      modifies this
      ensures ok <==> index.Some? && !Refused(old(Now()), Action.DeleteKey(index.value))
      ensures Now() == if ok then AfterAction(old(Now()), Action.DeleteKey(index.value)) else old(Now())
    {
      if index.None? || index.value < 0 || index.value >= size {
        return false;
      }
      var p := AllBut(Now(), GetKeys(key), index.value);
      SurvivorsOfOne(size, index.value);
      RebuildIsDropped(Now(), {index.value});
      if |p.keys| == 0 {
        return false;
      }
      status, time, reason := p.status, p.time, p.reason;
      Update(Join(p.keys, '\n'));
      return true;
    }

    method DeleteDisabledKeys() returns (deleted: nat)
      requires Valid(Now())
      modifies this
      ensures deleted == 0 <==> Refused(old(Now()), DeleteDisabled)
      ensures deleted == |GetKeys(old(key))| - |Survivors(|GetKeys(old(key))|, AutoDisabled(old(Now())))|
      ensures Now() == AfterAction(old(Now()), DeleteDisabled)
    {
      var p;
      p, deleted := NotAutoDisabled(Now(), GetKeys(key));
      AnyDropped(Now());
      RebuildIsDropped(Now(), AutoDisabled(Now()));
      if deleted == 0 {
        return;
      }
      status, time, reason := p.status, p.time, p.reason;
      Update(Join(p.keys, '\n'));
    }
  }
}

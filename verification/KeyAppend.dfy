/** The append branch of UpdateChannel in controller/channel.go: new keys go behind the
    existing ones, so that the maps indexed by key position keep their meaning. */
module KeyAppend {
  import opened Prelude
  import opened Text
  import opened ModelNames
  import opened MultiKey

  function Existing(text: string): seq<string> {
    Split(Trim(text, '\n'), '\n')
  }

  /** The non-blank lines of the request, trimmed. */
  function Incoming(input: string): seq<string> {
    TrimmedNames(Split(input, '\n'))
  }

  function Added(text: string, input: string): seq<string> {
    Without(Uniq(Incoming(input)), TrimmedNames(Existing(text)))
  }

  function AfterAppend(ch: Channel, input: string): Channel {
    var key := if ch.key == "" then input else Join(Existing(ch.key) + Added(ch.key, input), '\n');
    Saved(ch, key, ch.status, ch.time, ch.reason)
  }

  method NonBlankLines(input: string) returns (newKeys: seq<string>)
    ensures newKeys == Incoming(input)
  {
    var lines := Split(input, '\n');
    newKeys := [];
    for i := 0 to |lines|
      invariant newKeys == TrimmedNames(lines[..i])
    {
      assert lines[..i + 1][..i] == lines[..i];
      var key := TrimSpace(lines[i]);
      if key != "" {
        newKeys := newKeys + [key];
      }
    }
    assert lines[..|lines|] == lines;
  }

  method SeenKeys(existing: seq<string>) returns (seen: set<string>)
    ensures forall x :: x in seen <==> x in TrimmedNames(existing)
  {
    seen := {};
    for i := 0 to |existing|
      invariant forall x :: x in seen <==> x in TrimmedNames(existing[..i])
    {
      assert existing[..i + 1][..i] == existing[..i];
      var key := TrimSpace(existing[i]);
      if key == "" {
        continue;
      }
      seen := seen + {key};
    }
    assert existing[..|existing|] == existing;
  }

  lemma DedupeNext<T>(newKeys: seq<T>, key: T, known: seq<T>)
    ensures Without(Uniq(newKeys + [key]), known) ==
            Without(Uniq(newKeys), known) + if key in newKeys || key in known then [] else [key]
  {
    assert (newKeys + [key])[..|newKeys|] == newKeys;
    var uniq := Uniq(newKeys);
    if key in newKeys {
      assert Uniq(newKeys + [key]) == uniq;
    } else {
      assert Uniq(newKeys + [key]) == uniq + [key];
      assert (uniq + [key])[..|uniq|] == uniq;
    }
  }

  lemma TrimmedLines(input: string)
    ensures forall key <- Incoming(input) :: key != "" && TrimSpace(key) == key
  {
    TrimmedTight(Split(input, '\n'));
    forall key <- Incoming(input) ensures key != "" && TrimSpace(key) == key {
      TrimSpaceTightens(key);
    }
  }

  /** The loop with its set of seen keys. The keys were trimmed before, so trimming them again changes nothing. */
  method Dedupe<T(==)>(newKeys: seq<T>, existing: set<T>, trim: T -> T, blank: T, ghost known: seq<T>)
    returns (deduped: seq<T>)
    requires forall x :: x in existing <==> x in known
    requires forall i :: 0 <= i < |newKeys| ==> trim(newKeys[i]) == newKeys[i] != blank
    ensures deduped == Without(Uniq(newKeys), known)
  {
    var seen := existing;
    deduped := [];
    for i := 0 to |newKeys|
      invariant forall x :: x in seen <==> x in known || x in newKeys[..i]
      invariant deduped == Without(Uniq(newKeys[..i]), known)
    {
      assert newKeys[..i + 1] == newKeys[..i] + [newKeys[i]];
      DedupeNext(newKeys[..i], newKeys[i], known);
      var key := trim(newKeys[i]);
      if key == blank || key in seen {
        continue;
      }
      seen := seen + {key};
      deduped := deduped + [key];
    }
    assert newKeys[..|newKeys|] == newKeys;
  }

  method DedupedNewKeys(existing: seq<string>, input: string) returns (deduped: seq<string>)
    ensures deduped == Without(Uniq(Incoming(input)), TrimmedNames(existing))
  {
    var newKeys := NonBlankLines(input);
    var seen := SeenKeys(existing);
    TrimmedLines(input);
    forall i | 0 <= i < |newKeys| ensures TrimSpace(newKeys[i]) == newKeys[i] != "" {
      assert newKeys[i] in newKeys;
    }
    deduped := Dedupe(newKeys, seen, key => TrimSpace(key), "", TrimmedNames(existing));
  }

  /** The added keys: trimmed, non-empty, pairwise distinct, free of line breaks, none of them
      equal to an existing key after trimming, and no new input line is left out. */
  lemma AddedKeys(text: string, input: string)
    ensures Clean(Added(text, input)) && Atomic(Added(text, input), '\n')
    ensures forall key :: key in Added(text, input) <==>
              key in Incoming(input) && key !in TrimmedNames(Existing(text))
  {
    var lines := Split(input, '\n');
    TrimmedTight(lines);
    TrimmedAtomic(lines, '\n');
    UniqMembers(Incoming(input));
    WithoutMembers(Uniq(Incoming(input)), TrimmedNames(Existing(text)));
  }

  lemma JoinedReadsBack(existing: seq<string>, added: seq<string>)
    requires existing != [] && existing[0] != "" && existing[|existing| - 1] != "" && Atomic(existing, '\n')
    requires Atomic(added, '\n') && forall key <- added :: key != ""
    ensures Join(existing + added, '\n') != "" && GetKeys(Join(existing + added, '\n')) == existing + added
  {
    var all := existing + added;
    assert Atomic(all, '\n');
    assert added != [] ==> added[|added| - 1] in added;
    JoinEnds(all, '\n');
    ParseJoin(all, '\n');
  }

  /** What is read back after the append. */
  lemma AppendReadsBack(ch: Channel, input: string)
    requires ch.key != "" && Trim(ch.key, '\n') != ""
    ensures GetKeys(AfterAppend(ch, input).key) == GetKeys(ch.key) + Added(ch.key, input)
  {
    ParsedEnds(ch.key, '\n');
    AddedKeys(ch.key, input);
    JoinedReadsBack(Existing(ch.key), Added(ch.key, input));
  }

  /** The existing keys stay an unchanged prefix if and only if the stored text is more than
      line breaks or nothing is added. */
  lemma AppendKeepsPrefixIff(ch: Channel, input: string)
    requires ch.key != ""
    ensures GetKeys(ch.key) <= GetKeys(AfterAppend(ch, input).key) <==>
            (Trim(ch.key, '\n') != "" || Added(ch.key, input) == [])
  {
    var added := Added(ch.key, input);
    if Trim(ch.key, '\n') != "" {
      AppendReadsBack(ch, input);
    } else if added != [] {
      var all := [""] + added;
      assert Existing(ch.key) == [""];
      AddedKeys(ch.key, input);
      assert added[0] in added && all[|all| - 1] in added;
      var c := added[0][0];
      assert Atomic(all, '\n');
      JoinEnds(all, '\n');
      var text := Join(all, '\n');
      TrimEnds(text, '\n');
      assert text == "" + ['\n'] + Join(added, '\n') by { assert all[1..] == added; }
      JoinEnds(added, '\n');
      assert Join(added, '\n')[0] == c && c in added[0];
      assert text[1] == c && c in text && c != '\n';
      ParsedEnds(text, '\n');
    }
  }

  lemma SolidText(ch: Channel)
    requires Good(ch)
    ensures ch.key != "" && Trim(ch.key, '\n') != ""
  {
    assert GetKeys(ch.key)[0] in GetKeys(ch.key);
  }

  lemma AppendKeepsGood(ch: Channel, input: string)
    requires Good(ch)
    ensures Good(AfterAppend(ch, input))
  {
    SolidText(ch);
    AppendReadsBack(ch, input);
    AddedKeys(ch.key, input);
  }

  /** A key text that only grows at its end keeps the records of the keys it had. */
  lemma LongerText(ch: Channel, key: string, added: seq<string>, i: nat)
    requires Valid(ch) && key != "" && GetKeys(key) == GetKeys(ch.key) + added && i < |View(ch)| + |added|
    ensures |View(Saved(ch, key, ch.status, ch.time, ch.reason))| == |View(ch)| + |added|
    ensures View(Saved(ch, key, ch.status, ch.time, ch.reason))[i] ==
            if i < |View(ch)| then View(ch)[i] else Record(added[i - |View(ch)|], ENABLED, None, None)
  {
    var ch' := Saved(ch, key, ch.status, ch.time, ch.reason);
    if i < ch.size {
      RecordMoves(ch, ch', GetKeys(ch.key)[i], i, i);
    } else {
      assert i !in ch.status;
    }
  }

  lemma AppendedText(ch: Channel, input: string)
    requires ch.key != "" && Trim(ch.key, '\n') != ""
    ensures var key := AfterAppend(ch, input).key;
            && key != "" && GetKeys(key) == GetKeys(ch.key) + Added(ch.key, input)
            && AfterAppend(ch, input) == Saved(ch, key, ch.status, ch.time, ch.reason)
  {
    ParsedEnds(ch.key, '\n');
    AddedKeys(ch.key, input);
    JoinedReadsBack(Existing(ch.key), Added(ch.key, input));
  }

  /** Record `i` after the append, for every consistent row whose text is more than line breaks: statuses, times and
      reasons still name the same keys, and the new keys are enabled. */
  lemma AppendKeepsRecords(ch: Channel, input: string, i: nat)
    requires Valid(ch) && ch.key != "" && Trim(ch.key, '\n') != ""
    requires i < |View(ch)| + |Added(ch.key, input)|
    ensures |View(AfterAppend(ch, input))| == |View(ch)| + |Added(ch.key, input)|
    ensures View(AfterAppend(ch, input))[i] ==
            if i < |View(ch)| then View(ch)[i] else Record(Added(ch.key, input)[i - |View(ch)|], ENABLED, None, None)
  {
    AppendedText(ch, input);
    LongerText(ch, AfterAppend(ch, input).key, Added(ch.key, input), i);
  }

  /** The records stay a prefix if and only if the stored text is more than line breaks or nothing is added. */
  lemma AppendKeepsRecordsIff(ch: Channel, input: string)
    requires Valid(ch) && ch.key != ""
    ensures View(ch) <= View(AfterAppend(ch, input)) <==> Trim(ch.key, '\n') != "" || Added(ch.key, input) == []
  {
    var records, after := View(ch), View(AfterAppend(ch, input));
    if Trim(ch.key, '\n') != "" {
      if records != [] { AppendKeepsRecords(ch, input, 0); }
      forall i | 0 <= i < |records| ensures i < |after| && after[i] == records[i] {
        AppendKeepsRecords(ch, input, i);
      }
      assert records == after[..|records|];
    } else if Added(ch.key, input) == [] {
      BlankTextStays(ch, input);
    } else {
      AppendKeepsPrefixIff(ch, input);
      PrefixOfRecords(ch, AfterAppend(ch, input));
    }
  }

  /** With nothing to add, a text of line breaks is written as no text, and the stored one stays. */
  lemma BlankTextStays(ch: Channel, input: string)
    requires Valid(ch) && ch.key != "" && Trim(ch.key, '\n') == "" && Added(ch.key, input) == []
    ensures AfterAppend(ch, input) == ch
  {
    assert Existing(ch.key) + [] == [""];
    assert (map i | i in ch.status && i < ch.size :: ch.status[i]) == ch.status;
  }

  lemma PrefixOfRecords(ch: Channel, ch': Channel)
    ensures View(ch) <= View(ch') ==> GetKeys(ch.key) <= GetKeys(ch'.key)
  {
    if View(ch) <= View(ch') {
      var keys, keys' := GetKeys(ch.key), GetKeys(ch'.key);
      forall i | 0 <= i < |keys| ensures keys[i] == keys'[i] {
        assert View(ch)[i] == View(ch')[i];
      }
    }
  }

  /** Every append keeps the row consistent. */
  lemma AppendKeepsValid(ch: Channel, input: string)
    requires Valid(ch)
    ensures Valid(AfterAppend(ch, input))
  {
    if ch.key != "" {
      AppendNeverShrinks(ch, input);
    }
  }

  lemma AppendNeverShrinks(ch: Channel, input: string)
    requires Valid(ch) && ch.key != ""
    ensures |GetKeys(AfterAppend(ch, input).key)| >= |GetKeys(ch.key)|
  {
    if Trim(ch.key, '\n') != "" { AppendedText(ch, input); }
  }
}

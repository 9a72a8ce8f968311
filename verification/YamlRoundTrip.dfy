/**
 * Reading back what was printed, for every mapping: what the reader sees, and
 * exactly which mappings it sees unchanged.
 */
module YamlRoundTrip {
  import opened Counting
  import opened Ordering
  import opened YamlText
  import opened YamlWriter
  import opened YamlReader
  import opened Results

  // ----- What a reader sees -------------------------------------------------

  /** The value a reader gets in place of `v`; an empty mapping prints as a bare key, which reads as null. */
  function Seen(v: Value): Option<Value>
    decreases v, 1, 0
  {
    if !v.Map? then SeenLeaf(v)
    else if v.m == map[] then Some(Null)
    else match SeenKeys(SortedStrings(v.m.Keys), v)
         case None => None
         case Some(m) => Some(Map(m))
  }

  function SeenKeys(keys: seq<string>, v: Value): (r: Option<map<string, Value>>)
    requires v.Map? && forall k :: k in keys ==> k in v.m
    ensures r.Some? ==> forall k :: k in r.value <==> k in keys
    decreases v, 0, |keys|
  {
    if keys == [] then Some(map[])
    else if !KeyReadable(keys[0]) || Seen(v.m[keys[0]]).None? || SeenKeys(keys[1..], v).None? then None
    else Some(SeenKeys(keys[1..], v).value[keys[0] := Seen(v.m[keys[0]]).value])
  }

  // ----- Blocks -------------------------------------------------------------

  lemma KeysOf(m: map<string, Value>)
    ensures Distinct(SortedStrings(m.Keys))
    ensures SortedStrings(m.Keys) == [] <==> m == map[]
  {
    assert |m.Keys| == 0 <==> m.Keys == {};
    assert m.Keys == {} <==> m == map[];
  }

  lemma FirstLine(keys: seq<string>, v: Value, depth: nat)
    requires keys != [] && v.Map? && forall k :: k in keys ==> k in v.m
    ensures LinesFor(keys, v, depth) != []
    ensures IndentOf(LinesFor(keys, v, depth)[0]) == 2 * depth
  {
    OwnLine(keys[0], v.m[keys[0]], depth);
  }

  predicate Outside(rest: seq<string>, depth: nat) {
    rest == [] || IndentOf(rest[0]) < 2 * depth
  }

  /** What may follow an entry: a sibling, or something outside its block. */
  predicate Beside(after: seq<string>, depth: nat) {
    after == [] || IndentOf(after[0]) <= 2 * depth
  }

  lemma BesideIsOutside(after: seq<string>, depth: nat)
    requires Beside(after, depth)
    ensures Outside(after, depth + 1)
  {
  }

  function Found(seen: Option<map<string, Value>>, rest: seq<string>): Block {
    if seen.None? then None else Some((seen.value, rest))
  }

  function FoundMap(seen: Option<map<string, Value>>, rest: seq<string>): Option<(Value, seq<string>)> {
    if seen.None? then None else Some((Map(seen.value), rest))
  }

  lemma NestedBlock(own: seq<string>, indent: nat, deeper: nat, seen: Option<map<string, Value>>, rest: seq<string>)
    requires own != [] && IndentOf(own[0]) == deeper > indent
    requires ReadBlock(own + rest, deeper) == Found(seen, rest)
    ensures ReadNested(own + rest, indent) == FoundMap(seen, rest)
  {
    assert (own + rest)[0] == own[0];
  }

  lemma NothingHeld(held: Value, depth: nat, after: seq<string>)
    requires held.Map? && held.m == map[] && Beside(after, depth)
    ensures ReadNested(Lines(held, depth + 1) + after, 2 * depth) == Some((Null, after))
  {
    KeysOf(held.m);
    assert Lines(held, depth + 1) == [];
    assert [] + after == after;
  }

  lemma ReadHeldKeys(keys: seq<string>, held: Value, depth: nat, after: seq<string>)
    requires held.Map? && keys != [] && Distinct(keys) && forall k :: k in keys ==> k in held.m
    requires Beside(after, depth)
    ensures ReadNested(LinesFor(keys, held, depth + 1) + after, 2 * depth) == FoundMap(SeenKeys(keys, held), after)
    decreases held, 0, |keys| + 1
  {
    FirstLine(keys, held, depth + 1);
    BesideIsOutside(after, depth);
    ReadLines(keys, held, depth + 1, after);
    NestedBlock(LinesFor(keys, held, depth + 1), 2 * depth, 2 * (depth + 1), SeenKeys(keys, held), after);
  }

  /** The bare key's block, read with the lines that follow it. */
  lemma ReadHeld(held: Value, depth: nat, after: seq<string>)
    requires held.Map? && Beside(after, depth)
    ensures ReadNested(Lines(held, depth + 1) + after, 2 * depth) ==
            if Seen(held).None? then None else Some((Seen(held).value, after))
    decreases held, 1, 0
  {
    if held.m == map[] {
      NothingHeld(held, depth, after);
    } else {
      KeysOf(held.m);
      ReadHeldKeys(SortedStrings(held.m.Keys), held, depth, after);
    }
  }

  /** One step of the block reader. */
  lemma BlockStep(lines: seq<string>, indent: nat, entry: Option<Parsed>)
    requires lines != [] && IndentOf(lines[0]) == indent && ReadEntry(lines[0][indent..]) == entry
    ensures entry.None? ==> ReadBlock(lines, indent) == None
    ensures entry.Some? && entry.value.Leaf? ==>
              ReadBlock(lines, indent) == Add(entry.value.key, entry.value.value, ReadBlock(lines[1..], indent))
    ensures entry.Some? && entry.value.Bare? ==>
              var nested := ReadNested(lines[1..], indent);
              ReadBlock(lines, indent) ==
              if nested.None? then None else Add(entry.value.key, nested.value.0, ReadBlock(nested.value.1, indent))
  {
  }

  lemma ReadScalarEntry(key: string, value: Value, depth: nat, after: seq<string>)
    requires !value.Map?
    ensures ReadBlock(EntryLines(key, value, depth) + after, 2 * depth) ==
            if !KeyReadable(key) || SeenLeaf(value).None? then None
            else Add(key, value, ReadBlock(after, 2 * depth))
  {
    var own := Pad(depth) + EntryText(key, value);
    var lines := [own] + after;
    OwnLine(key, value, depth);
    ReadEntryText(key, value);
    assert lines[0] == own && lines[1..] == after;
    BlockStep(lines, 2 * depth, ReadEntry(EntryText(key, value)));
  }

  lemma ReadBareEntry(key: string, value: Value, depth: nat, held: seq<string>, nested: Option<(Value, seq<string>)>)
    requires value.Map? && nested == ReadNested(held, 2 * depth)
    ensures ReadBlock([Pad(depth) + EntryText(key, value)] + held, 2 * depth) ==
            if !KeyReadable(key) || nested.None? then None
            else Add(key, nested.value.0, ReadBlock(nested.value.1, 2 * depth))
  {
    var own := Pad(depth) + EntryText(key, value);
    var lines := [own] + held;
    OwnLine(key, value, depth);
    ReadEntryText(key, value);
    assert lines[0] == own && lines[1..] == held;
    BlockStep(lines, 2 * depth, ReadEntry(EntryText(key, value)));
  }

  /** One entry and the block after it, given how the rest of the block reads. */
  lemma ReadOne(key: string, value: Value, depth: nat, after: seq<string>)
    requires Beside(after, depth)
    ensures ReadBlock(EntryLines(key, value, depth) + after, 2 * depth) ==
            if !KeyReadable(key) || Seen(value).None? then None
            else Add(key, Seen(value).value, ReadBlock(after, 2 * depth))
    decreases value, 2, 0
  {
    if value.Map? {
      var held := Lines(value, depth + 1) + after;
      ReadHeld(value, depth, after);
      ReadBareEntry(key, value, depth, held, ReadNested(held, 2 * depth));
      Associative([Pad(depth) + EntryText(key, value)], Lines(value, depth + 1), after);
    } else {
      ReadScalarEntry(key, value, depth, after);
    }
  }

  lemma FoundOneMore(keys: seq<string>, v: Value, rest: seq<string>, tail: Block, whole: Block)
    requires keys != [] && v.Map? && Distinct(keys) && forall k :: k in keys ==> k in v.m
    requires tail == Found(SeenKeys(keys[1..], v), rest)
    requires whole == if !KeyReadable(keys[0]) || Seen(v.m[keys[0]]).None? then None
                      else Add(keys[0], Seen(v.m[keys[0]]).value, tail)
    ensures whole == Found(SeenKeys(keys, v), rest)
  {
    assert keys[0] !in keys[1..];
  }

  lemma AfterFirst(keys: seq<string>, v: Value, depth: nat, rest: seq<string>)
    requires keys != [] && v.Map? && forall k :: k in keys ==> k in v.m
    requires Outside(rest, depth)
    ensures var after := LinesFor(keys[1..], v, depth) + rest;
      && Beside(after, depth)
      && LinesFor(keys, v, depth) + rest == EntryLines(keys[0], v.m[keys[0]], depth) + after
  {
    var after := LinesFor(keys[1..], v, depth) + rest;
    if keys[1..] == [] {
      assert after == rest;
    } else {
      FirstLine(keys[1..], v, depth);
      assert after[0] == LinesFor(keys[1..], v, depth)[0];
    }
    Associative(EntryLines(keys[0], v.m[keys[0]], depth), LinesFor(keys[1..], v, depth), rest);
  }

  lemma {:induction false} ReadLines(keys: seq<string>, v: Value, depth: nat, rest: seq<string>)
    requires v.Map? && forall k :: k in keys ==> k in v.m
    requires Distinct(keys) && Outside(rest, depth)
    ensures ReadBlock(LinesFor(keys, v, depth) + rest, 2 * depth) == Found(SeenKeys(keys, v), rest)
    decreases v, 0, |keys|
  {
    if keys == [] {
      assert LinesFor(keys, v, depth) + rest == rest;
    } else {
      var after := LinesFor(keys[1..], v, depth) + rest;
      AfterFirst(keys, v, depth, rest);
      ReadLines(keys[1..], v, depth, rest);
      ReadOne(keys[0], v.m[keys[0]], depth, after);
      FoundOneMore(keys, v, rest, ReadBlock(after, 2 * depth), ReadBlock(LinesFor(keys, v, depth) + rest, 2 * depth));
    }
  }

  // ----- Text ---------------------------------------------------------------

  /** A line that splitting neither breaks nor drops. */
  predicate Whole(line: string) {
    line != "" && '\n' !in line
  }

  lemma {:induction false} SplitLine(line: string, tail: string)
    requires '\n' !in line
    ensures Split(line + "\n" + tail) == [line] + Split(tail)
  {
    var t := line + "\n" + tail;
    if line == "" {
      assert t[0] == '\n' && t[1..] == tail;
    } else {
      SplitLine(line[1..], tail);
      assert t[1..] == line[1..] + "\n" + tail;
      assert [line[0]] + line[1..] == line;
    }
  }

  /** Joining whole lines and splitting again gives the lines. */
  lemma {:induction false} SplitJoined(lines: seq<string>)
    requires forall i :: 0 <= i < |lines| ==> Whole(lines[i])
    ensures Filter(NonBlank, Split(Joined(lines))) == lines
  {
    if lines == [] {
      assert Filter(NonBlank, [""]) == Filter(NonBlank, [""][1..]);
    } else {
      SplitLine(lines[0], Joined(lines[1..]));
      SplitJoined(lines[1..]);
      var t := [lines[0]] + Split(Joined(lines[1..]));
      assert t[0] == lines[0] && t[1..] == Split(Joined(lines[1..]));
    }
  }

  lemma {:induction false} EscapedIsWhole(text: string)
    ensures '\n' !in EscapeEach(text)
  {
    if text != "" {
      EscapedIsWhole(text[1..]);
    }
  }

  lemma QuoteIsWhole(text: string)
    ensures Whole(Quote(text))
  {
    EscapeIsPerChar(text);
    EscapedIsWhole(text);
  }

  lemma KeyIsWhole(key: string)
    ensures Whole(KeyText(key))
  {
    if !PlainKey(key) {
      QuoteIsWhole(key);
    }
  }

  lemma LeafIsWhole(v: Value)
    requires !v.Map?
    ensures '\n' !in LeafText(v)
  {
    match v
    case Str(s) => QuoteIsWhole(s);
    case Int(n) => IntIsWhole(n);
    case Bool(b) => assert '\n' !in "true" && '\n' !in "false";
    case Null => assert '\n' !in "null";
  }

  lemma {:induction false} DigitsAreWhole(n: nat)
    ensures '\n' !in Digits(n)
  {
    if n >= 10 {
      DigitsAreWhole(n / 10);
    }
  }

  lemma IntIsWhole(n: int)
    ensures '\n' !in IntText(n)
  {
    DigitsAreWhole(if n < 0 then -n else n);
  }

  lemma OwnLineIsWhole(key: string, v: Value, depth: nat)
    ensures Whole(Pad(depth) + EntryText(key, v))
  {
    KeyIsWhole(key);
    if !v.Map? {
      LeafIsWhole(v);
    }
  }

  lemma EntryIsWhole(key: string, value: Value, depth: nat)
    ensures forall i :: 0 <= i < |EntryLines(key, value, depth)| ==> Whole(EntryLines(key, value, depth)[i])
    decreases value, 2, 0
  {
    OwnLineIsWhole(key, value, depth);
    if value.Map? {
      assert EntryLines(key, value, depth) == [Pad(depth) + EntryText(key, value)] + Lines(value, depth + 1);
      LinesAreWhole(SortedStrings(value.m.Keys), value, depth + 1);
    }
  }

  /** No value puts a raw newline, or nothing at all, on a line. */
  lemma {:induction false} LinesAreWhole(keys: seq<string>, v: Value, depth: nat)
    requires v.Map? && forall k :: k in keys ==> k in v.m
    ensures forall i :: 0 <= i < |LinesFor(keys, v, depth)| ==> Whole(LinesFor(keys, v, depth)[i])
    decreases v, 0, |keys|
  {
    if keys != [] {
      EntryIsWhole(keys[0], v.m[keys[0]], depth);
      LinesAreWhole(keys[1..], v, depth);
    }
  }

  // ----- The round trip -----------------------------------------------------

  lemma DocumentOf(lines: seq<string>, seen: Option<map<string, Value>>)
    requires lines != [] && IndentOf(lines[0]) == 0
    requires forall i :: 0 <= i < |lines| ==> Whole(lines[i])
    requires ReadBlock(lines, 0) == Found(seen, [])
    ensures ReadText(Text(lines)) == if seen.None? then None else Some(Map(seen.value))
  {
    SplitJoined(lines);
  }

  lemma ReadMapping(keys: seq<string>, v: Value)
    requires keys != [] && v.Map? && Distinct(keys) && forall k :: k in keys ==> k in v.m
    ensures ReadText(Text(LinesFor(keys, v, 0))) ==
            if SeenKeys(keys, v).None? then None else Some(Map(SeenKeys(keys, v).value))
  {
    var lines := LinesFor(keys, v, 0);
    FirstLine(keys, v, 0);
    LinesAreWhole(keys, v, 0);
    ReadLines(keys, v, 0, []);
    assert lines + [] == lines;
    DocumentOf(lines, SeenKeys(keys, v));
  }

  /** What a reader sees in the printed text of any mapping. */
  lemma ReadBack(config: map<string, Value>)
    ensures ReadText(Text(Lines(Map(config), 0))) == Seen(Map(config))
  {
    KeysOf(config);
    if config == map[] {
      BlankText();
    } else {
      ReadMapping(SortedStrings(config.Keys), Map(config));
    }
  }

  lemma BlankText()
    ensures ReadText("\n") == Some(Null)
  {
    assert Split("\n"[1..]) == [""];
    assert Split("\n") == ["", ""];
    assert ["", ""][1..] == [""] && [""][1..] == [];
    assert Filter(NonBlank, [""]) == [];
  }

  /** Every sub-mapping has an entry, every key is readable, every string printable. */
  ghost predicate Faithful(v: Value) {
    match v
    case Str(s) => Printable(s)
    case Map(m) => m != map[] && forall k :: k in m ==> KeyReadable(k) && Faithful(m[k])
    case _ => true
  }

  lemma SameMap(seen: Option<map<string, Value>>, m: map<string, Value>, keys: seq<string>)
    requires forall k :: k in keys <==> k in m
    requires seen.Some? ==> forall k :: k in seen.value <==> k in keys
    ensures seen == Some(m) <==> seen.Some? && forall k :: k in keys ==> seen.value[k] == m[k]
  {
    if seen.Some? && forall k :: k in keys ==> seen.value[k] == m[k] {
      assert seen.value == m;
    }
  }

  lemma SeenMap(v: Value, keys: seq<string>)
    requires v.Map? && v.m != map[] && keys == SortedStrings(v.m.Keys)
    ensures Seen(v) == Some(v) <==> SeenKeys(keys, v) == Some(v.m)
  {
  }

  lemma FaithfulMap(v: Value, keys: seq<string>)
    requires v.Map? && v.m != map[] && forall k :: k in keys <==> k in v.m
    ensures Faithful(v) <==> forall k :: k in keys ==> KeyReadable(k) && Faithful(v.m[k])
  {
  }

  lemma FaithfulSeen(v: Value)
    ensures Seen(v) == Some(v) <==> Faithful(v)
    decreases v, 1, 0
  {
    if v.Map? && v.m != map[] {
      var keys := SortedStrings(v.m.Keys);
      KeysOf(v.m);
      SeenMap(v, keys);
      SameMap(SeenKeys(keys, v), v.m, keys);
      FaithfulKeys(keys, v);
      FaithfulMap(v, keys);
    }
  }

  /** Each key's value is seen unchanged exactly when it is faithful. */
  lemma {:induction false} FaithfulKeys(keys: seq<string>, v: Value)
    requires v.Map? && forall k :: k in keys ==> k in v.m
    requires Distinct(keys)
    ensures (SeenKeys(keys, v).Some? && forall k :: k in keys ==> SeenKeys(keys, v).value[k] == v.m[k]) <==>
            (forall k :: k in keys ==> KeyReadable(k) && Faithful(v.m[k]))
    decreases v, 0, |keys|
  {
    if keys != [] {
      FaithfulKeys(keys[1..], v);
      FaithfulSeen(v.m[keys[0]]);
      assert forall k :: k in keys <==> k == keys[0] || k in keys[1..];
    }
  }

  /** The printed file reads back as the same mapping exactly when the mapping is faithful. */
  lemma RoundTrip(config: map<string, Value>)
    ensures ReadText(Text(Lines(Map(config), 0))) == Some(Map(config)) <==> Faithful(Map(config))
  {
    ReadBack(config);
    FaithfulSeen(Map(config));
  }

  lemma NotReadBack(config: map<string, Value>, key: string)
    requires key in config && !(KeyReadable(key) && Faithful(config[key]))
    ensures ReadText(Text(Lines(Map(config), 0))) != Some(Map(config))
  {
    RoundTrip(config);
  }

  /** A key left plain that reads as a number. */
  lemma NumberKeyIsLost()
    ensures ReadText(Text(Lines(Map(map["7" := Null]), 0))) != Some(Map(map["7" := Null]))
  {
    assert PlainKey("7") && IsIntText("7");
    NotReadBack(map["7" := Null], "7");
  }

  /** A key of 1025 letters is too long for an implicit key. */
  lemma LongKeyIsLost(key: string)
    requires key == seq(1025, _ => 'a')
    ensures ReadText(Text(Lines(Map(map[key := Null]), 0))) != Some(Map(map[key := Null]))
  {
    assert PlainKey(key) && KeyText(key) == key;
    NotReadBack(map[key := Null], key);
  }

  /** An empty mapping reads as null. */
  lemma EmptyMapIsLost()
    ensures ReadText(Text(Lines(Map(map["a" := Map(map[])]), 0))) != Some(Map(map["a" := Map(map[])]))
  {
    NotReadBack(map["a" := Map(map[])], "a");
  }

  /** A raw control character is refused. */
  lemma ControlIsLost()
    ensures ReadText(Text(Lines(Map(map["a" := Str("\0")]), 0))) != Some(Map(map["a" := Str("\0")]))
  {
    assert "\0"[0] < ' ';
    NotReadBack(map["a" := Str("\0")], "a");
  }
}

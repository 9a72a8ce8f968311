/**
 * The redacted-configuration printer: a nested mapping becomes an indented block
 * mapping, keys in code-point order, one line per entry.
 */
module YamlWriter {
  import opened Ordering
  import opened YamlText

  predicate PlainStart(c: char) {
    'A' <= c <= 'Z' || 'a' <= c <= 'z' || IsDigit(c) || c == '_'
  }

  predicate PlainRest(c: char) {
    PlainStart(c) || c == '.' || c == '-'
  }

  /** `[A-Za-z0-9_][A-Za-z0-9_.-]*` in full. */
  predicate PlainKey(key: string) {
    key != "" && PlainStart(key[0]) && forall i :: 1 <= i < |key| ==> PlainRest(key[i])
  }

  function KeyText(key: string): string {
    if PlainKey(key) then key else Quote(key)
  }

  /** Text after the `key: ` separator. */
  function LeafText(v: Value): string
    requires !v.Map?
  {
    match v
    case Bool(b) => if b then "true" else "false"
    case Int(n) => IntText(n)
    case Null => "null"
    case Str(s) => Quote(s)
  }

  function Spaces(n: nat): string {
    seq(n, _ => ' ')
  }

  function Pad(depth: nat): string {
    Spaces(2 * depth)
  }

  /** One line of the block: a bare key before a nested mapping, a key and its scalar otherwise. */
  function EntryText(key: string, v: Value): string {
    if v.Map? then KeyText(key) + ":" else KeyText(key) + ": " + LeafText(v)
  }

  /** The lines of one entry: its own, and those of the mapping it holds. */
  function EntryLines(key: string, value: Value, depth: nat): seq<string>
    decreases value, 2, 0
  {
    var own := Pad(depth) + EntryText(key, value);
    if value.Map? then [own] + Lines(value, depth + 1) else [own]
  }

  /** The lines of a mapping. */
  function Lines(v: Value, depth: nat): seq<string>
    requires v.Map?
    decreases v, 1, 0
  {
    LinesFor(SortedStrings(v.m.Keys), v, depth)
  }

  /** The lines of the entries under `keys`, in that order. */
  function LinesFor(keys: seq<string>, v: Value, depth: nat): seq<string>
    requires v.Map? && forall k :: k in keys ==> k in v.m
    decreases v, 0, |keys|
  {
    if keys == [] then [] else EntryLines(keys[0], v.m[keys[0]], depth) + LinesFor(keys[1..], v, depth)
  }

  /** `"\n".join(lines) + "\n"`. */
  function Text(lines: seq<string>): string {
    if lines == [] then "\n" else Joined(lines)
  }

  function Joined(lines: seq<string>): string {
    if lines == [] then "" else lines[0] + "\n" + Joined(lines[1..])
  }

  // ----- The printer itself -------------------------------------------------

  /** The list that the recursive printer appends to. */
  class LineList {
    var lines: seq<string>

    constructor ()
      ensures lines == []
    {
      lines := [];
    }
  }

  lemma {:induction false} LinesForNext(keys: seq<string>, v: Value, depth: nat, k: string)
    requires v.Map? && k in v.m && forall j :: j in keys ==> j in v.m
    ensures forall j :: j in keys + [k] ==> j in v.m
    ensures LinesFor(keys + [k], v, depth) == LinesFor(keys, v, depth) + EntryLines(k, v.m[k], depth)
  {
    if keys == [] {
      assert (keys + [k])[1..] == [];
      assert LinesFor((keys + [k])[1..], v, depth) == [];
    } else {
      LinesForNext(keys[1..], v, depth, k);
      assert (keys + [k])[1..] == keys[1..] + [k];
      var first, last := EntryLines(keys[0], v.m[keys[0]], depth), EntryLines(k, v.m[k], depth);
      Associative(first, LinesFor(keys[1..], v, depth), last);
    }
  }

  method WriteLines(v: Value, out: LineList, depth: nat)
    requires v.Map?
    modifies out
    ensures out.lines == old(out.lines) + Lines(v, depth)
    decreases v
  {
    var pad := Pad(depth);
    var keys := SortedStrings(v.m.Keys);
    ghost var start := out.lines;
    for i := 0 to |keys|
      invariant out.lines == start + LinesFor(keys[..i], v, depth)
    {
      var key := keys[i];
      TakeNext(keys, i);
      var value := v.m[key];
      LinesForNext(keys[..i], v, depth, key);
      ghost var before := out.lines;
      if value.Map? {
        out.lines := out.lines + [pad + (KeyText(key) + ":")];
        WriteLines(value, out, depth + 1);
      } else {
        out.lines := out.lines + [pad + (KeyText(key) + ": " + LeafText(value))];
      }
      EntryWritten(before, out.lines, key, value, depth);
      Associative(start, LinesFor(keys[..i], v, depth), EntryLines(key, value, depth));
    }
    assert keys[..|keys|] == keys;
  }

  lemma EntryWritten(before: seq<string>, after: seq<string>, key: string, value: Value, depth: nat)
    requires value.Map? ==> after == before + [Pad(depth) + (KeyText(key) + ":")] + Lines(value, depth + 1)
    requires !value.Map? ==> after == before + [Pad(depth) + (KeyText(key) + ": " + LeafText(value))]
    ensures after == before + EntryLines(key, value, depth)
  {
    if value.Map? {
      Associative(before, [Pad(depth) + (KeyText(key) + ":")], Lines(value, depth + 1));
    }
  }

  /** The file that is written, newline-terminated. */
  method WriteConfig(config: map<string, Value>) returns (text: string)
    ensures text == Text(Lines(Map(config), 0))
  {
    var out := new LineList();
    WriteLines(Map(config), out, 0);
    assert [] + Lines(Map(config), 0) == Lines(Map(config), 0);
    text := Text(out.lines);
  }
}

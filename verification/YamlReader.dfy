/**
 * A reader for the printed subset: block mappings by indentation as in section
 * 8.2.2 of YAML 1.2.2, plain or double-quoted keys, scalars as in `YamlText`.
 * A mapping whose keys are not all strings, or that repeats one, is refused.
 */
module YamlReader {
  import opened Ordering
  import opened YamlText
  import opened YamlWriter
  import opened Results

  // ----- Lines --------------------------------------------------------------

  function IndentOf(line: string): (n: nat)
    ensures n <= |line|
  {
    if line != "" && line[0] == ' ' then 1 + IndentOf(line[1..]) else 0
  }

  /** `text.split("\n")`. */
  function Split(text: string): (r: seq<string>)
    ensures r != []
  {
    if text == "" then [""]
    else
      var rest := Split(text[1..]);
      if text[0] == '\n' then [""] + rest else [[text[0]] + rest[0]] + rest[1..]
  }

  predicate NonBlank(line: string) {
    line != ""
  }

  // ----- Entries ------------------------------------------------------------

  datatype Parsed = Bare(key: string) | Leaf(key: string, value: Value)

  function PlainLength(t: string): (n: nat)
    ensures n <= |t|
  {
    if t != "" && PlainRest(t[0]) then 1 + PlainLength(t[1..]) else 0
  }

  /** The colon after an implicit key comes at most this far from its start: section 7.4 of YAML 1.2.2. */
  const KEY_LIMIT: nat := 1024

  /** A key within the limit and the text after it. */
  function ReadKey(t: string): Option<(string, string)> {
    var read := ReadAnyKey(t);
    if read.None? || |t| - |read.value.1| > KEY_LIMIT then None else read
  }

  /** A plain key that resolves to something else is no string. */
  function ReadAnyKey(t: string): Option<(string, string)> {
    if t == "" then None
    else if t[0] == '"' then ReadQuoted(t[1..])
    else
      var n := PlainLength(t);
      if n == 0 || IsSpecial(t[..n]) then None else Some((t[..n], t[n..]))
  }

  function ReadScalar(t: string): Option<Value> {
    if t != "" && t[0] == '"' then
      match ReadQuoted(t[1..])
      case None => None
      case Some((s, rest)) => if rest == "" then Some(Str(s)) else None
    else ResolvePlain(t)
  }

  function ReadEntry(t: string): Option<Parsed> {
    match ReadKey(t)
    case None => None
    case Some((key, rest)) =>
      if rest == ":" then Some(Bare(key))
      else if |rest| < 2 || rest[0] != ':' || rest[1] != ' ' then None
      else match ReadScalar(rest[2..])
           case None => None
           case Some(v) => Some(Leaf(key, v))
  }

  // ----- Blocks -------------------------------------------------------------

  type Block = Option<(map<string, Value>, seq<string>)>

  function Add(key: string, v: Value, block: Block): Block {
    match block
    case None => None
    case Some((m, rest)) => if key in m then None else Some((m[key := v], rest))
  }

  /** The entries at exactly this indentation, and the lines left over. */
  function ReadBlock(lines: seq<string>, indent: nat): (r: Block)
    ensures r.Some? ==> |r.value.1| <= |lines|
    decreases |lines|, 1
  {
    if lines == [] || IndentOf(lines[0]) < indent then Some((map[], lines))
    else if IndentOf(lines[0]) > indent then None
    else match ReadEntry(lines[0][indent..])
         case None => None
         case Some(Leaf(key, v)) => Add(key, v, ReadBlock(lines[1..], indent))
         case Some(Bare(key)) =>
           match ReadNested(lines[1..], indent)
           case None => None
           case Some((v, rest)) => Add(key, v, ReadBlock(rest, indent))
  }

  /** What a bare key holds: the deeper block that follows, or nothing. */
  function ReadNested(lines: seq<string>, indent: nat): (r: Option<(Value, seq<string>)>)
    ensures r.Some? ==> |r.value.1| <= |lines|
    decreases |lines|, 2
  {
    if lines == [] || IndentOf(lines[0]) <= indent then Some((Null, lines))
    else match ReadBlock(lines, IndentOf(lines[0]))
         case None => None
         case Some((m, rest)) => Some((Map(m), rest))
  }

  function ReadDocument(lines: seq<string>): Option<Value> {
    if lines == [] then Some(Null)
    else match ReadBlock(lines, IndentOf(lines[0]))
         case None => None
         case Some((m, rest)) => if rest == [] then Some(Map(m)) else None
  }

  function ReadText(text: string): Option<Value> {
    ReadDocument(Filter(NonBlank, Split(text)))
  }

  // ----- Reading one printed entry back -------------------------------------

  predicate KeyReadable(key: string) {
    |KeyText(key)| <= KEY_LIMIT && if PlainKey(key) then !IsSpecial(key) else Printable(key)
  }

  lemma ReadQuote(text: string, tail: string)
    ensures Quote(text) + tail != "" && (Quote(text) + tail)[0] == '"'
    ensures ReadQuoted((Quote(text) + tail)[1..]) == if Printable(text) then Some((text, tail)) else None
  {
    EscapeIsPerChar(text);
    ReadEscaped(text, tail);
    assert (Quote(text) + tail)[1..] == EscapeEach(text) + "\"" + tail;
  }

  lemma {:induction false} PlainLengthOf(key: string, tail: string)
    requires forall i :: 0 <= i < |key| ==> PlainRest(key[i])
    requires tail == "" || !PlainRest(tail[0])
    ensures PlainLength(key + tail) == |key|
  {
    if key == "" {
      assert key + tail == tail;
    } else {
      PlainLengthOf(key[1..], tail);
      assert (key + tail)[1..] == key[1..] + tail;
    }
  }

  lemma ReadKeyText(key: string, tail: string)
    requires tail != "" && tail[0] == ':'
    ensures ReadKey(KeyText(key) + tail) == if KeyReadable(key) then Some((key, tail)) else None
    ensures KeyText(key) != "" && KeyText(key)[0] != ' '
  {
    var t := KeyText(key) + tail;
    if PlainKey(key) {
      PlainLengthOf(key, tail);
      assert t[..|key|] == key && t[|key|..] == tail;
    } else {
      ReadQuote(key, tail);
    }
  }

  /** What a reader makes of a scalar. */
  function SeenLeaf(v: Value): Option<Value>
    requires !v.Map?
  {
    if v.Str? && !Printable(v.s) then None else Some(v)
  }

  lemma ReadLeafText(v: Value)
    requires !v.Map?
    ensures ReadScalar(LeafText(v)) == SeenLeaf(v)
  {
    match v
    case Str(s) =>
      ReadQuote(s, "");
      assert Quote(s) + "" == Quote(s);
    case Int(n) => ResolveInt(n);
    case Bool(b) => ResolveBool(b);
    case Null => ResolveNull();
  }

  lemma ResolveBool(b: bool)
    ensures ReadScalar(if b then "true" else "false") == Some(Bool(b))
  {
    assert "true"[0] == 't' && "false"[0] == 'f' && "~"[0] == '~' && "null"[0] == 'n';
    assert "Null"[0] == 'N' && "NULL"[0] == 'N' && "True"[0] == 'T' && "TRUE"[0] == 'T';
  }

  lemma ResolveNull()
    ensures ReadScalar("null") == Some(Null)
  {
    assert "null"[0] == 'n';
  }

  lemma ReadEntryText(key: string, v: Value)
    ensures ReadEntry(EntryText(key, v)) ==
            if !KeyReadable(key) then None
            else if v.Map? then Some(Bare(key))
            else if SeenLeaf(v).None? then None
            else Some(Leaf(key, v))
    ensures EntryText(key, v) != "" && EntryText(key, v)[0] != ' '
  {
    if v.Map? {
      ReadKeyText(key, ":");
    } else {
      var tail := ": " + LeafText(v);
      assert KeyText(key) + ": " + LeafText(v) == KeyText(key) + tail;
      ReadKeyText(key, tail);
      assert tail[2..] == LeafText(v) && tail[1] == ' ' && |tail| >= 2;
      ReadLeafText(v);
      assert tail != ":";
    }
  }

  lemma {:induction false} IndentOfPadded(n: nat, t: string)
    requires t != "" && t[0] != ' '
    ensures IndentOf(Spaces(n) + t) == n && (Spaces(n) + t)[n..] == t
  {
    if n == 0 {
      assert Spaces(0) + t == t;
    } else {
      IndentOfPadded(n - 1, t);
      assert (Spaces(n) + t)[1..] == Spaces(n - 1) + t;
    }
  }

  lemma OwnLine(key: string, v: Value, depth: nat)
    ensures var own := Pad(depth) + EntryText(key, v);
      IndentOf(own) == 2 * depth && own[2 * depth..] == EntryText(key, v)
  {
    ReadEntryText(key, v);
    IndentOfPadded(2 * depth, EntryText(key, v));
  }
}

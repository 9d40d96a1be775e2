/** The animation record of data/Animation.py and the parsing of one line of an FNIS
    animation list into a kind, options, identifier, file and trailing object text. */
module Animations {
  import opened Base

  /** The TYPE enumeration, members in declaration order. */
  datatype AnimType = Basic | AnimObj | Sequence | Additive | Offset | Paired | Killmove | Unknown

  /** The OPTION enumeration, members in declaration order. */
  datatype AnimOption =
    Acyclic | AnimObjOption | Transition | HeadTracking | BlendTime | Known | Bsa | StickyAO
    | Duration | Trigger | NoOption

  /** The enumeration member's name, as `animType.name` gives it. */
  function TypeName(t: AnimType): string {
    match t
    case Basic => "BASIC"
    case AnimObj => "ANIM_OBJ"
    case Sequence => "SEQUENCE"
    case Additive => "ADDITIVE"
    case Offset => "OFFSET"
    case Paired => "PAIRED"
    case Killmove => "KILLMOVE"
    case Unknown => "UNKNOWN"
  }

  function OptionName(o: AnimOption): string {
    match o
    case Acyclic => "ACYCLIC"
    case AnimObjOption => "ANIM_OBJ"
    case Transition => "TRANSITION"
    case HeadTracking => "HEAD_TRACKING"
    case BlendTime => "BLEND_TIME"
    case Known => "KNOWN"
    case Bsa => "BSA"
    case StickyAO => "STICKY_AO"
    case Duration => "DURATION"
    case Trigger => "TRIGGER"
    case NoOption => "NONE"
  }

  // ---------------------------------------------------------------------------
  // Kind detection: every TYPE pattern is an anchored alternation of literal
  // prefixes ("^(fu|fuo|o)"), and UNKNOWN's empty pattern matches every token.

  /** The TYPE table: each member with the alternatives of its anchored pattern. */
  const TypePatterns: seq<(AnimType, seq<string>)> := [
    (Basic, ["b"]),
    (AnimObj, ["fu", "fuo", "o"]),
    (Sequence, ["s", "so"]),
    (Additive, ["+"]),
    (Offset, ["ofa"]),
    (Paired, ["pa"]),
    (Killmove, ["km"]),
    (Unknown, [""])
  ]

  /** `re.search` of an anchored alternation of literals: some alternative is a prefix. */
  predicate PatternMatches(alternatives: seq<string>, s: string)
    decreases |alternatives|
  {
    alternatives != [] && (StartsWith(s, alternatives[0]) || PatternMatches(alternatives[1..], s))
  }

  /** The first member of `table` whose pattern matches, else UNKNOWN. */
  function FirstMatch(table: seq<(AnimType, seq<string>)>, s: string): (t: AnimType)
    decreases |table|
  {
    if table == [] then Unknown
    else if PatternMatches(table[0].1, s) then table[0].0
    else FirstMatch(table[1..], s)
  }

  /** getAnimTypeFromString: the first TYPE, in declaration order, whose pattern matches. */
  function TypeFromString(s: string): (t: AnimType) {
    FirstMatch(TypePatterns, s)
  }

  /** The decision table that the ordered patterns amount to. */
  lemma TypeFromStringTable(s: string)
    ensures TypeFromString(s) ==
      if StartsWith(s, "b") then Basic
      else if StartsWith(s, "fu") || StartsWith(s, "o") then AnimObj
      else if StartsWith(s, "s") then Sequence
      else if StartsWith(s, "+") then Additive
      else if StartsWith(s, "pa") then Paired
      else if StartsWith(s, "km") then Killmove
      else Unknown
  {
    assert StartsWith(s, "");
    if StartsWith(s, "fuo") { assert StartsWith(s, "fu"); }
    if StartsWith(s, "so") { assert StartsWith(s, "s"); }
    if StartsWith(s, "ofa") { assert StartsWith(s, "o"); }
  }

  /** OFFSET is never the result: every token its pattern accepts starts with 'o', which
      ANIM_OBJ, declared earlier, already accepts. */
  lemma OffsetNeverReturned(s: string)
    ensures TypeFromString(s) != Offset
  {
    TypeFromStringTable(s);
  }

  /** getOptionsFromString: whatever the token, the result is the one-element list [NONE]
      (the matches it collects are discarded). */
  function OptionsFromString(token: Option<string>): (r: seq<AnimOption>)
    ensures r == [NoOption]
  {
    [NoOption]
  }

  // ---------------------------------------------------------------------------
  // Line tokenizer for the pattern  ^(\S*)(?: -(\S*))? (\S*) (\S*)((?:\s(?:\S*))*)

  /** Python's `\s` on `str`: the characters for which `str.isspace()` holds. */
  predicate IsSpace(c: char) {
    c == ' ' || ('\t' <= c <= '\r') || ('\U{1C}' <= c <= '\U{1F}')
    || c == '\U{85}' || c == '\U{A0}' || c == '\U{1680}' || ('\U{2000}' <= c <= '\U{200A}')
    || c == '\U{2028}' || c == '\U{2029}' || c == '\U{202F}' || c == '\U{205F}' || c == '\U{3000}'
  }

  /** No character of `s` is whitespace (a match of `\S*`). */
  predicate NoSpace(s: string) {
    forall k :: 0 <= k < |s| ==> !IsSpace(s[k])
  }

  /** Splits `s` into its maximal leading `\S*` run and the rest of `s`. */
  function Run(s: string): (r: (string, string))
    decreases |s|
  {
    if s == [] || IsSpace(s[0]) then ([], s)
    else var t := Run(s[1..]); ([s[0]] + t.0, t.1)
  }

  /** The rest of the text after a run is empty or starts with whitespace. */
  predicate RunBoundary(s: string) {
    s == [] || IsSpace(s[0])
  }

  /** The groups of a successful match; `options` is None when the optional group is skipped. */
  datatype Tokens = Tokens(kind: string, options: Option<string>, id: string, file: string, obj: string)

  /** The part ` (\S*) (\S*)(tail)` of the pattern, tried on `s`; the tail swallows the rest. */
  function IdFileRest(s: string): (r: Option<(string, string, string)>) {
    if s != [] && s[0] == ' ' then
      var idRun := Run(s[1..]);
      var r1 := idRun.1;
      if r1 != [] && r1[0] == ' ' then
        var fileRun := Run(r1[1..]);
        Some((idRun.0, fileRun.0, fileRun.1))
      else None
    else None
  }

  /** The branch with the optional group ` -(\S*)`, tried on the text after the kind token:
      the options token and the groups that follow it, when they can follow it. */
  function OptionsBranch(r: string): (b: Option<(string, (string, string, string))>) {
    if |r| >= 2 && r[0] == ' ' && r[1] == '-' then
      var optRun := Run(r[2..]);
      var g := IdFileRest(optRun.1);
      if g.Some? then Some((optRun.0, g.value)) else None
    else None
  }

  /** The regular expression's match: the kind token is the maximal leading `\S*` run; the
      " -options" branch is tried first and abandoned when identifier and file cannot
      follow it; the tail swallows the rest of the line. */
  function Tokenize(line: string): (r: Option<Tokens>)
  {
    var kindRun := Run(line);
    var w := OptionsBranch(kindRun.1);
    if w.Some? then
      Some(Tokens(kindRun.0, Some(w.value.0), w.value.1.0, w.value.1.1, w.value.1.2))
    else
      var g := IdFileRest(kindRun.1);
      if g.Some? then Some(Tokens(kindRun.0, None, g.value.0, g.value.1, g.value.2)) else None
  }

  /** The text of the optional group, " -" and the options token, or nothing. */
  function OptionsText(options: Option<string>): string {
    if options.Some? then " -" + options.value else ""
  }

  /** The groups joined by the pattern's literal text. */
  function Joined(t: Tokens): string {
    t.kind + (OptionsText(t.options) + (" " + (t.id + (" " + (t.file + t.obj)))))
  }

  /** `line` is exactly what the pattern describes, group by group. */
  predicate IsMatch(line: string, t: Tokens) {
    line == Joined(t)
    && NoSpace(t.kind) && NoSpace(t.id) && NoSpace(t.file)
    && (t.options.Some? ==> NoSpace(t.options.value))
    && RunBoundary(t.obj)
  }

  /** One parsed line: (type, options, animId, animFile, animObj). */
  datatype ParsedLine = ParsedLine(kind: AnimType, options: seq<AnimOption>, id: string, file: string, obj: string)

  /** parseLine: a matching line gives its kind, its options, identifier, file and the rest
      of the line; any other line gives (UNKNOWN, [], "", "", ""). */
  function ParseLine(line: string): (p: ParsedLine)
    ensures Tokenize(line).None? ==> p == ParsedLine(Unknown, [], "", "", "")
  {
    match Tokenize(line)
    case None => ParsedLine(Unknown, [], "", "", "")
    case Some(t) => ParsedLine(TypeFromString(t.kind), OptionsFromString(t.options), t.id, t.file, t.obj)
  }

  /** A run and its rest put together give the text back; the run holds no whitespace and
      the rest starts at whitespace or is empty. */
  lemma {:induction false} RunSound(s: string)
    ensures Run(s).0 + Run(s).1 == s
    ensures NoSpace(Run(s).0) && RunBoundary(Run(s).1)
    decreases |s|
  {
    if s != [] && !IsSpace(s[0]) {
      RunSound(s[1..]);
      var t := Run(s[1..]);
      assert [s[0]] + t.0 + t.1 == [s[0]] + s[1..] == s;
      assert forall k :: 1 <= k < |[s[0]] + t.0| ==> ([s[0]] + t.0)[k] == t.0[k - 1];
    }
  }

  /** Any split of `s` into a whitespace-free part and a rest that starts at whitespace is
      the one `Run` makes. */
  lemma {:induction false} RunUnique(s: string, a: string, b: string)
    requires s == a + b && NoSpace(a) && RunBoundary(b)
    ensures Run(s) == (a, b)
    decreases |a|
  {
    if a == [] {
      assert s == b;
    } else {
      assert s[0] == a[0] && s[1..] == a[1..] + b;
      RunUnique(s[1..], a[1..], b);
      assert a == [a[0]] + a[1..];
    }
  }

  /** What the identifier-file-tail part accepts, and that it accepts exactly that. */
  lemma IdFileRestSound(s: string)
    requires IdFileRest(s).Some?
    ensures var g := IdFileRest(s).value;
      s == " " + (g.0 + (" " + (g.1 + g.2))) && NoSpace(g.0) && NoSpace(g.1) && RunBoundary(g.2)
  {
    var r1 := Run(s[1..]).1;
    RunSound(s[1..]);
    RunSound(r1[1..]);
    assert s == " " + s[1..];
    assert r1 == " " + r1[1..];
  }

  lemma IdFileRestComplete(id: string, file: string, obj: string)
    requires NoSpace(id) && NoSpace(file) && RunBoundary(obj)
    ensures IdFileRest(" " + (id + (" " + (file + obj)))) == Some((id, file, obj))
  {
    var r := " " + (file + obj);
    var s := " " + (id + r);
    assert s[1..] == id + r;
    RunUnique(s[1..], id, r);
    assert r[1..] == file + obj;
    RunUnique(r[1..], file, obj);
  }

  /** What the branch with the options group accepts. */
  lemma OptionsBranchSound(r: string)
    requires OptionsBranch(r).Some?
    ensures var w := OptionsBranch(r).value;
      r == " -" + (w.0 + (" " + (w.1.0 + (" " + (w.1.1 + w.1.2)))))
      && NoSpace(w.0) && NoSpace(w.1.0) && NoSpace(w.1.1) && RunBoundary(w.1.2)
  {
    var optRun := Run(r[2..]);
    RunSound(r[2..]);
    IdFileRestSound(optRun.1);
    assert r == " -" + r[2..];
  }

  /** A tokenization through the options branch is a match with the options group. */
  lemma TokenizeSoundWith(line: string)
    requires OptionsBranch(Run(line).1).Some?
    ensures IsMatch(line, Tokenize(line).value)
  {
    var kindRun := Run(line);
    RunSound(line);
    var w := OptionsBranch(kindRun.1).value;
    OptionsBranchSound(kindRun.1);
    var t := Tokens(kindRun.0, Some(w.0), w.1.0, w.1.1, w.1.2);
    assert Tokenize(line) == Some(t);
    assert OptionsText(t.options) + (" " + (t.id + (" " + (t.file + t.obj)))) == kindRun.1;
  }

  /** A tokenization without the options branch is a match without the options group. */
  lemma TokenizeSoundWithout(line: string)
    requires OptionsBranch(Run(line).1).None? && IdFileRest(Run(line).1).Some?
    ensures IsMatch(line, Tokenize(line).value)
  {
    var kindRun := Run(line);
    RunSound(line);
    var g := IdFileRest(kindRun.1).value;
    IdFileRestSound(kindRun.1);
    var t := Tokens(kindRun.0, None, g.0, g.1, g.2);
    assert Tokenize(line) == Some(t);
    assert OptionsText(t.options) + (" " + (t.id + (" " + (t.file + t.obj)))) == kindRun.1;
  }

  /** A successful tokenization is a match of the pattern. */
  lemma TokenizeSound(line: string)
    requires Tokenize(line).Some?
    ensures IsMatch(line, Tokenize(line).value)
  {
    if OptionsBranch(Run(line).1).Some? {
      TokenizeSoundWith(line);
    } else {
      TokenizeSoundWithout(line);
    }
  }

  /** A match with the options group is found by the options branch. */
  lemma TokenizeCompleteWith(line: string, t: Tokens)
    requires IsMatch(line, t) && t.options.Some?
    ensures Tokenize(line) == Some(t)
  {
    var q := " " + (t.id + (" " + (t.file + t.obj)));
    var r1 := " -" + (t.options.value + q);
    assert line == t.kind + r1;
    RunUnique(line, t.kind, r1);
    assert r1[2..] == t.options.value + q;
    RunUnique(r1[2..], t.options.value, q);
    IdFileRestComplete(t.id, t.file, t.obj);
    assert OptionsBranch(r1) == Some((t.options.value, (t.id, t.file, t.obj)));
  }

  /** A match without the options group is tokenized, by one branch or the other. */
  lemma TokenizeCompleteWithout(line: string, t: Tokens)
    requires IsMatch(line, t) && t.options.None?
    ensures Tokenize(line).Some?
  {
    var q := " " + (t.id + (" " + (t.file + t.obj)));
    assert line == t.kind + q;
    RunUnique(line, t.kind, q);
    IdFileRestComplete(t.id, t.file, t.obj);
  }

  /** Every line the pattern can match is tokenized, and when it can match with the options
      group, that is the match chosen: the optional group is greedy. */
  lemma TokenizeComplete(line: string, t: Tokens)
    requires IsMatch(line, t)
    ensures Tokenize(line).Some?
    ensures t.options.Some? ==> Tokenize(line) == Some(t)
  {
    if t.options.Some? {
      TokenizeCompleteWith(line, t);
    } else {
      TokenizeCompleteWithout(line, t);
    }
  }

  /** There is at most one match with and one without the options group, so the pattern
      determines all five groups. */
  lemma MatchUnique(line: string, t: Tokens, u: Tokens)
    requires IsMatch(line, t) && IsMatch(line, u)
    requires t.options.Some? == u.options.Some?
    ensures t == u
  {
    var q := " " + (t.id + (" " + (t.file + t.obj)));
    var q' := " " + (u.id + (" " + (u.file + u.obj)));
    var r1 := OptionsText(t.options) + q;
    var r1' := OptionsText(u.options) + q';
    RunUnique(line, t.kind, r1);
    RunUnique(line, u.kind, r1');
    assert t.kind == u.kind && r1 == r1';
    if t.options.Some? {
      assert r1[2..] == t.options.value + q && r1'[2..] == u.options.value + q';
      RunUnique(r1[2..], t.options.value, q);
      RunUnique(r1[2..], u.options.value, q');
      assert (t.options.value, q) == (u.options.value, q');
    } else {
      assert OptionsText(t.options) == [] && OptionsText(u.options) == [];
      assert r1 == q && r1' == q';
    }
    assert q == q';
    IdFileRestComplete(t.id, t.file, t.obj);
    IdFileRestComplete(u.id, u.file, u.obj);
  }

  // ---------------------------------------------------------------------------
  // The Animation record.

  /** An animation: its kind and options, three parallel stage lists and a display name. */
  datatype Animation = Animation(
    kind: AnimType, options: seq<AnimOption>,
    stages: seq<string>, stagesFile: seq<string>, stagesObj: seq<string>,
    name: string)

  /** Prefix of `s` before its last '_', or `s` when it has none (`s.rsplit("_", 1)[0]`). */
  function DropLastSegment(s: string): (r: string)
    ensures |r| <= |s| && r == s[..|r|]
    ensures '_' !in s ==> r == s
    ensures '_' in s ==> |r| < |s| && s[|r|] == '_' && '_' !in s[|r| + 1..]
    decreases |s|
  {
    if s == [] then s
    else if s[|s| - 1] == '_' then s[..|s| - 1]
    else
      var r := DropLastSegment(s[..|s| - 1]);
      assert s[..|s| - 1][..|r|] == s[..|r|];
      if '_' in s[..|s| - 1] then
        assert s[|r| + 1..] == s[..|s| - 1][|r| + 1..] + [s[|s| - 1]];
        r
      else
        assert '_' !in s;
        s
  }

  /** `stages[0].rsplit("_", 2)[0]`: the identifier without its last two '_'-separated
      segments (without its last one when it has a single '_'). */
  function NameOf(id: string): (r: string) {
    DropLastSegment(DropLastSegment(id))
  }

  function CountChar(c: char, s: string): (n: nat)
    decreases |s|
  {
    if s == [] then 0 else (if s[0] == c then 1 else 0) + CountChar(c, s[1..])
  }

  lemma {:induction false} CountCharAppend(c: char, a: string, b: string)
    ensures CountChar(c, a + b) == CountChar(c, a) + CountChar(c, b)
    decreases |a|
  {
    if a != [] {
      assert (a + b)[1..] == a[1..] + b;
      CountCharAppend(c, a[1..], b);
    } else {
      assert a + b == b;
    }
  }

  lemma {:induction false} CountCharZero(c: char, s: string)
    ensures (CountChar(c, s) == 0) == (c !in s)
    decreases |s|
  {
    if s != [] {
      CountCharZero(c, s[1..]);
      assert s == [s[0]] + s[1..];
    }
  }

  /** With a '_' in `s`, what DropLastSegment leaves out is the last '_' and the segment
      after it. */
  lemma DropLastSegmentCountSome(s: string)
    requires '_' in s
    ensures var r := DropLastSegment(s);
      var rest := s[|r|..];
      s == r + rest && rest[0] == '_' && CountChar('_', rest) == 1
  {
    var r := DropLastSegment(s);
    var rest := s[|r|..];
    CountCharZero('_', s[|r| + 1..]);
    assert rest[0] == '_' && rest[1..] == s[|r| + 1..];
  }

  lemma DropLastSegmentCount(s: string)
    ensures var r := DropLastSegment(s);
      var rest := s[|r|..];
      s == r + rest && (rest == [] || rest[0] == '_')
      && CountChar('_', rest) == (if '_' in s then 1 else 0)
  {
    if '_' in s {
      DropLastSegmentCountSome(s);
    } else {
      assert s[|DropLastSegment(s)|..] == [];
    }
  }

  /** Cutting `s` after its prefix `r2` of its prefix `r1` leaves the two differences. */
  lemma PrefixOfPrefix(s: string, r1: string, r2: string)
    requires |r1| <= |s| && r1 == s[..|r1|] && |r2| <= |r1| && r2 == r1[..|r2|]
    ensures s[|r2|..] == r1[|r2|..] + s[|r1|..] && s == r2 + s[|r2|..]
  {
    assert s[|r2|..|r1|] == r1[|r2|..];
    assert s[|r2|..] == s[|r2|..|r1|] + s[|r1|..];
  }

  /** The display name is a prefix of the identifier, and what it leaves out starts with '_'
      and holds exactly two of the identifier's '_' (all of them when it has fewer). */
  lemma NameOfShape(id: string)
    ensures StartsWith(id, NameOf(id))
    ensures var rest := id[|NameOf(id)|..];
      (rest == [] || rest[0] == '_')
      && CountChar('_', rest) == (if CountChar('_', id) < 2 then CountChar('_', id) else 2)
  {
    var r1 := DropLastSegment(id);
    var r2 := DropLastSegment(r1);
    DropLastSegmentCount(id);
    DropLastSegmentCount(r1);
    var rest1 := id[|r1|..];
    var rest2 := r1[|r2|..];
    PrefixOfPrefix(id, r1, r2);
    CountCharAppend('_', rest2, rest1);
    CountCharAppend('_', r2, rest2);
    CountCharAppend('_', r1, rest1);
    if '_' !in r1 {
      CountCharZero('_', r1);
      assert r2 == r1;
    }
    if '_' !in id {
      CountCharZero('_', id);
      assert r1 == id;
    }
  }

  /** The record invariant: three parallel, non-empty stage lists, and the name derived from
      the first stage. */
  predicate Valid(a: Animation) {
    |a.stages| >= 1 && |a.stagesFile| == |a.stages| && |a.stagesObj| == |a.stages|
    && a.name == NameOf(a.stages[0])
  }

  /** Animation.__init__: one stage holding exactly the given identifier, file and object. */
  function NewAnimation(kind: AnimType, options: seq<AnimOption>, id: string, file: string, obj: string): (a: Animation)
    ensures Valid(a)
    ensures a.stages == [id] && a.stagesFile == [file] && a.stagesObj == [obj]
    ensures a.kind == kind && a.options == options
  {
    Animation(kind, options, [id], [file], [obj], NameOf(id))
  }

  /** addStage: one more entry at the end of each stage list, so parallel lists stay
      parallel and the name stays the first stage's; nothing else changes. */
  function AddStage(a: Animation, id: string, file: string, obj: string): (r: Animation)
    ensures Valid(a) ==> Valid(r)
    ensures r.stages == a.stages + [id] && r.stagesFile == a.stagesFile + [file]
      && r.stagesObj == a.stagesObj + [obj]
    ensures r.kind == a.kind && r.options == a.options && r.name == a.name
  {
    a.(stages := a.stages + [id], stagesFile := a.stagesFile + [file], stagesObj := a.stagesObj + [obj])
  }
}

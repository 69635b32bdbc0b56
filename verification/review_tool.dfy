/**
 * The non-interactive logic of kyo_review_tool.py: suggesting a regular
 * expression from a highlighted sample, the pattern list edited in the
 * window, and the text of the custom-patterns file that saving writes.
 */
module ReviewTool {
  import opened Text

  // ---------------------------------------------------------------------------
  // Suggesting a pattern from a sample

  /** The characters `re.escape` puts a backslash before (Python 3.7 and
      later). */
  predicate Special(c: char)
  {
    c in {'(', ')', '[', ']', '{', '}', '?', '*', '+', '-', '|', '^', '$', '\\', '.', '&', '~', '#',
          ' ', '\t', '\n', '\r', '\U{b}', '\U{c}'}
  }

  function EscapeChar(c: char): string
  {
    if Special(c) then ['\\', c] else [c]
  }

  /** `re.escape(s)`. */
  function Escape(s: string): string
  {
    if s == [] then [] else EscapeChar(s[0]) + Escape(s[1..])
  }

  /** What `\d` matches. */
  predicate IsDigit(c: char)
  {
    '0' <= c <= '9'
  }

  /** `s` without its leading digits: what is left starts with a non-digit. */
  function SkipDigits(s: string): (r: string)
    ensures |r| <= |s| && (r == [] || !IsDigit(r[0]))
  {
    if s != [] && IsDigit(s[0]) then SkipDigits(s[1..]) else s
  }

  /** `re.sub(r'\d+', r'\\d+', s)`: every maximal run of digits, found from
      the left, becomes `\d+`. */
  function Generalize(s: string): string
    decreases |s|
  {
    if s == [] then []
    else if IsDigit(s[0]) then "\\d+" + Generalize(SkipDigits(s[1..]))
    else [s[0]] + Generalize(s[1..])
  }

  /** `generate_regex_from_sample`: nothing for a blank sample; otherwise the
      stripped sample escaped, its digit runs generalized, between word
      boundaries. */
  function GenerateRegex(sample: string): string
  {
    var t := Strip(sample);
    if t == [] then "" else "\\b" + Generalize(Escape(t)) + "\\b"
  }

  /** What a body made of plain characters, escaped characters and `\d+`
      stands for, piece by piece. */
  datatype Piece = Char(c: char) | DigitRun

  /** A text read as pieces: each maximal run of digits one piece, every
      other character a piece of its own. */
  function Pieces(t: string): seq<Piece>
    decreases |t|
  {
    if t == [] then []
    else if IsDigit(t[0]) then [DigitRun] + Pieces(SkipDigits(t[1..]))
    else [Char(t[0])] + Pieces(t[1..])
  }

  /** How a regular expression reads such a body: `\d+` is a digit run, a
      backslash escapes the character after it, any other character stands
      for itself. */
  function Parse(b: string): seq<Piece>
    decreases |b|
  {
    if b == [] then []
    else if |b| >= 3 && b[..3] == "\\d+" then [DigitRun] + Parse(b[3..])
    else if |b| >= 2 && b[0] == '\\' then [Char(b[1])] + Parse(b[2..])
    else [Char(b[0])] + Parse(b[1..])
  }

  /** The non-digit characters of `t`, in order. */
  function NonDigits(t: string): string
  {
    if t == [] then [] else (if IsDigit(t[0]) then [] else [t[0]]) + NonDigits(t[1..])
  }

  /** The characters of the pieces that are characters, in order. */
  function Chars(ps: seq<Piece>): string
  {
    if ps == [] then [] else (if ps[0].Char? then [ps[0].c] else []) + Chars(ps[1..])
  }

  /** Generalizing leaves no digit behind. */
  lemma {:induction false} GeneralizeNoDigits(s: string)
    ensures forall i :: 0 <= i < |Generalize(s)| ==> !IsDigit(Generalize(s)[i])
    decreases |s|
  {
    if s != [] {
      if IsDigit(s[0]) {
        GeneralizeNoDigits(SkipDigits(s[1..]));
      } else {
        GeneralizeNoDigits(s[1..]);
      }
    }
  }

  lemma EscapeDigit(c: char, x: string)
    requires IsDigit(c)
    ensures SkipDigits(Escape([c] + x)) == SkipDigits(Escape(x))
  {
    assert ([c] + x)[1..] == x;
    assert Escape([c] + x) == [c] + Escape(x);
    assert ([c] + Escape(x))[1..] == Escape(x);
  }

  /** Skipping the leading digits commutes with escaping, digits being no
      special characters. */
  lemma {:induction false} EscapeDigits(t: string)
    ensures SkipDigits(Escape(t)) == Escape(SkipDigits(t))
    decreases |t|
  {
    if t != [] {
      if IsDigit(t[0]) {
        assert t == [t[0]] + t[1..];
        EscapeDigit(t[0], t[1..]);
        EscapeDigits(t[1..]);
      } else {
        assert Escape(t)[0] == EscapeChar(t[0])[0];
      }
    }
  }

  lemma GeneralizeCons(c: char, x: string)
    requires !IsDigit(c)
    ensures Generalize([c] + x) == [c] + Generalize(x)
  {
    assert ([c] + x)[1..] == x;
  }

  lemma GeneralizeDigitRun(x: string)
    ensures Generalize("\\d+" + x) == "\\d+" + Generalize(x)
  {
    GeneralizeCons('+', x);
    GeneralizeCons('d', ['+'] + x);
    GeneralizeCons('\\', ['d'] + (['+'] + x));
    assert "\\d+" + x == ['\\'] + (['d'] + (['+'] + x));
  }

  lemma ParseDigitRun(x: string)
    ensures Parse("\\d+" + x) == [DigitRun] + Parse(x)
  {
    var s := "\\d+" + x;
    assert s[..3] == "\\d+" && s[3..] == x;
  }

  lemma ParseEscaped(c: char, x: string)
    requires c != 'd'
    ensures Parse(['\\', c] + x) == [Char(c)] + Parse(x)
  {
    var s := ['\\', c] + x;
    assert s[2..] == x;
    assert |s| >= 3 ==> s[..3] != "\\d+" by {
      if |s| >= 3 { assert s[..3][1] == c; }
    }
  }

  lemma ParseCons(c: char, x: string)
    requires c != '\\'
    ensures Parse([c] + x) == [Char(c)] + Parse(x)
  {
    var s := [c] + x;
    assert s[1..] == x;
    assert |s| >= 3 ==> s[..3] != "\\d+" by {
      if |s| >= 3 { assert s[..3][0] == c; }
    }
  }

  /** The body suggested for a character and what follows reads back as
      the character and what the rest reads back as. */
  lemma BodyStep(c: char, rest: string)
    requires !IsDigit(c)
    ensures Parse(Generalize(Escape([c] + rest))) == [Char(c)] + Parse(Generalize(Escape(rest)))
  {
    assert ([c] + rest)[1..] == rest;
    var e := Escape(rest);
    var g := Generalize(e);
    if Special(c) {
      assert Escape([c] + rest) == ['\\'] + ([c] + e);
      GeneralizeCons(c, e);
      GeneralizeCons('\\', [c] + e);
      assert ['\\'] + ([c] + g) == ['\\', c] + g;
      ParseEscaped(c, g);
    } else {
      GeneralizeCons(c, e);
      ParseCons(c, g);
    }
  }

  /** The suggested body reads back as the stripped sample: its digit runs
      as digit runs, every other character as itself, in order. */
  lemma {:induction false} BodyReadsBack(t: string)
    ensures Parse(Generalize(Escape(t))) == Pieces(t)
    decreases |t|
  {
    if t != [] {
      assert t == [t[0]] + t[1..];
      if IsDigit(t[0]) {
        var u := SkipDigits(t[1..]);
        EscapeDigit(t[0], t[1..]);
        EscapeDigits(t[1..]);
        assert Escape(t) == [t[0]] + Escape(t[1..]);
        assert Generalize(Escape(t)) == "\\d+" + Generalize(Escape(u));
        ParseDigitRun(Generalize(Escape(u)));
        BodyReadsBack(u);
      } else {
        BodyStep(t[0], t[1..]);
        BodyReadsBack(t[1..]);
      }
    }
  }

  lemma {:induction false} SkipKeepsOrder(t: string)
    ensures NonDigits(SkipDigits(t)) == NonDigits(t)
    decreases |t|
  {
    if t != [] && IsDigit(t[0]) {
      SkipKeepsOrder(t[1..]);
    }
  }

  /** Reading a text as pieces keeps its non-digit characters, in order. */
  lemma {:induction false} PiecesKeepOrder(t: string)
    ensures Chars(Pieces(t)) == NonDigits(t)
    decreases |t|
  {
    if t != [] {
      if IsDigit(t[0]) {
        var ps := Pieces(SkipDigits(t[1..]));
        SkipKeepsOrder(t[1..]);
        PiecesKeepOrder(SkipDigits(t[1..]));
        assert ([DigitRun] + ps)[1..] == ps;
      } else {
        PiecesKeepOrder(t[1..]);
        assert ([Char(t[0])] + Pieces(t[1..]))[1..] == Pieces(t[1..]);
      }
    }
  }

  /** A blank sample gives the empty pattern; any other gives `\b`, a body
      without digits that reads back as the stripped sample (each digit run
      generalized, the other characters in order), and `\b`. */
  lemma GenerateRegexShape(sample: string)
    ensures var r := GenerateRegex(sample);
      var t := Strip(sample);
      && (r == "" <==> t == [])
      && (t != [] ==>
            |r| >= 4 && r[..2] == "\\b" && r[|r| - 2..] == "\\b"
            && (forall i :: 2 <= i < |r| - 2 ==> !IsDigit(r[i]))
            && Parse(r[2..|r| - 2]) == Pieces(t)
            && Chars(Parse(r[2..|r| - 2])) == NonDigits(t))
  {
    var t := Strip(sample);
    if t != [] {
      var body := Generalize(Escape(t));
      var r := "\\b" + body + "\\b";
      assert r[2..|r| - 2] == body;
      GeneralizeNoDigits(Escape(t));
      assert forall i :: 2 <= i < |r| - 2 ==> r[i] == body[i - 2];
      BodyReadsBack(t);
      PiecesKeepOrder(t);
    }
  }

  // ---------------------------------------------------------------------------
  // The pattern list being edited

  /** The warnings the window shows for an empty entry box. */
  const EMPTY_BOX := "Test/Edit Pattern box is empty."
  const EMPTY_BOX_ADD := "Test/Edit Pattern box is empty. Cannot add."
  const NO_SELECTION := "Please highlight text to generate a pattern."

  /** The list with entry `i` deleted and `p` inserted in its place. */
  function ReplacedAt(ps: seq<string>, i: nat, p: string): (r: seq<string>)
    requires i < |ps|
    ensures |r| == |ps| && r[i] == p
    ensures forall j :: 0 <= j < |ps| && j != i ==> r[j] == ps[j]
  {
    ps[..i] + [p] + ps[i + 1..]
  }

  /** The list with entry `i` deleted: those before it stay, those after it
      move up by one. */
  function RemovedAt(ps: seq<string>, i: nat): (r: seq<string>)
    requires i < |ps|
    ensures |r| == |ps| - 1
    ensures forall j :: 0 <= j < i ==> r[j] == ps[j]
    ensures forall j :: i <= j < |r| ==> r[j] == ps[j + 1]
  {
    ps[..i] + ps[i + 1..]
  }

  /** Removing what was just added restores the list. */
  lemma RemoveAdded(ps: seq<string>, p: string)
    ensures RemovedAt(ps + [p], |ps|) == ps
  {
    assert (ps + [p])[..|ps|] == ps;
  }

  /** Removing an entry forgets what it was replaced by. */
  lemma RemoveReplaced(ps: seq<string>, i: nat, p: string)
    requires i < |ps|
    ensures RemovedAt(ReplacedAt(ps, i, p), i) == RemovedAt(ps, i)
  {
  }

  /** The list box, its selection and the entry box of the window. */
  class PatternEditor {
    /** The name of the list the window edits. */
    const name: string
    var patterns: seq<string>
    var selected: Option<nat>
    var entry: string

    ghost predicate Valid()
      reads this
    {
      selected.Some? ==> selected.value < |patterns|
    }

    /** The window as `load_patterns_from_config` leaves it: the list the
        custom-patterns module holds under the edited list's name, empty when
        it holds none or cannot be imported. */
    constructor (name: string, custom: Option<map<string, seq<string>>>)
      ensures Valid() && this.name == name && selected == None && entry == ""
      ensures patterns == if custom.Some? then StoredList(custom.value, name) else []
    {
      this.name := name;
      patterns := if custom.Some? then StoredList(custom.value, name) else [];
      selected := None;
      entry := "";
    }

    /** `on_suggest_pattern` for a highlighted sample: the suggested pattern
        replaces the entry box, or a warning is shown for a blank sample. */
    method Suggest(sample: string) returns (warning: Option<string>)
      requires Valid()
      modifies this
      ensures Valid() && patterns == old(patterns) && selected == old(selected)
      ensures if Strip(sample) == []
              then (warning, entry) == (Some(NO_SELECTION), old(entry))
              else (warning, entry) == (None, GenerateRegex(sample))
    {
      if Strip(sample) == [] {
        return Some(NO_SELECTION);
      }
      entry := GenerateRegex(sample);
      warning := None;
    }

    /** `on_pattern_select`: a selected pattern is copied into the entry
        box; with nothing selected the entry box is cleared. */
    method Select(choice: Option<nat>)
      requires choice.Some? ==> choice.value < |patterns|
      modifies this
      ensures Valid() && patterns == old(patterns) && selected == choice
      ensures entry == if choice.Some? then patterns[choice.value] else ""
    {
      selected := choice;
      entry := if choice.Some? then patterns[choice.value] else "";
    }

    /** `update_pattern_in_list`: the stripped entry replaces the selected
        pattern (which is no longer selected), or is appended when none is
        selected; an empty entry only gives a warning. */
    method Update() returns (warning: Option<string>)
      requires Valid()
      modifies this
      ensures Valid() && entry == old(entry)
      ensures var p := Strip(old(entry));
        if p == [] then (warning, patterns, selected) == (Some(EMPTY_BOX), old(patterns), old(selected))
        else
          && (warning, selected) == (None, None)
          && patterns == match old(selected)
                         case None => old(patterns) + [p]
                         case Some(i) => ReplacedAt(old(patterns), i, p)
    {
      var p := Strip(entry);
      if p == [] {
        return Some(EMPTY_BOX);
      }
      warning := None;
      match selected
      case None =>
        patterns := patterns + [p];
      case Some(i) =>
        patterns := patterns[..i] + patterns[i + 1..];
        patterns := patterns[..i] + [p] + patterns[i..];
        selected := None;
    }

    /** `add_pattern`: the stripped entry is appended and the entry box
        cleared; an empty entry only gives a warning. */
    method Add() returns (warning: Option<string>)
      requires Valid()
      modifies this
      ensures Valid() && selected == old(selected)
      ensures var p := Strip(old(entry));
        if p == [] then (warning, patterns, entry) == (Some(EMPTY_BOX_ADD), old(patterns), old(entry))
        else (warning, patterns, entry) == (None, old(patterns) + [p], "")
    {
      var p := Strip(entry);
      if p != [] {
        patterns := patterns + [p];
        entry := "";
        warning := None;
      } else {
        warning := Some(EMPTY_BOX_ADD);
      }
    }

    /** `remove_pattern`: once confirmed, the selected pattern is deleted,
        nothing is selected any more and the entry box is cleared; without
        a selection or a confirmation nothing changes. */
    method Remove(confirmed: bool)
      requires Valid()
      modifies this
      ensures Valid()
      ensures if old(selected).Some? && confirmed
              then (patterns, selected, entry) == (RemovedAt(old(patterns), old(selected).value), None, "")
              else (patterns, selected, entry) == (old(patterns), old(selected), old(entry))
    {
      if selected.None? {
        return;
      }
      if confirmed {
        patterns := RemovedAt(patterns, selected.value);
        selected := None;
        entry := "";
      }
    }

    /** `save_patterns_to_config`, given the answer to its confirmation and
        what importing the custom-patterns module gives: once confirmed, the
        text written to the file, holding the listed patterns under the
        edited list's name and the other stored lists. */
    method Save(confirmed: bool, custom: Option<map<string, seq<string>>>)
      returns (content: Option<string>)
      ensures content == if confirmed then Some(PatternFile(ListsToSave(name, patterns, custom))) else None
    {
      if !confirmed {
        return None;
      }
      var lists := CollectLists(name, patterns, custom);
      var text := BuildPatternFile(lists);
      content := Some(text);
    }
  }

  // ---------------------------------------------------------------------------
  // Saving the pattern lists

  /** The names of the lists the custom-patterns file may hold. */
  const KNOWN_LISTS := ["MODEL_PATTERNS", "QA_NUMBER_PATTERNS"]

  /** `getattr(custom_module, name, [])`. */
  function StoredList(custom: map<string, seq<string>>, name: string): seq<string>
  {
    if name in custom then custom[name] else []
  }

  /** The lists saving writes, in order: the edited list under its own name,
      then every other known list as the custom-patterns module holds it
      (empty when it lacks it), or none of them when that module cannot be
      imported. */
  function ListsToSave(name: string, edited: seq<string>, custom: Option<map<string, seq<string>>>)
    : seq<(string, seq<string>)>
  {
    [(name, edited)] + match custom
      case None => []
      case Some(m) => OtherLists(name, m, KNOWN_LISTS)
  }

  function OtherLists(name: string, m: map<string, seq<string>>, names: seq<string>): seq<(string, seq<string>)>
  {
    if names == [] then []
    else (if names[0] != name then [(names[0], StoredList(m, names[0]))] else []) + OtherLists(name, m, names[1..])
  }

  /** The saved lists start with the edited one, under its own name; each
      other known list keeps what the module held; with the module missing
      the edited list is all that is saved; no name is saved twice. */
  lemma ListsToSaveKeeps(name: string, edited: seq<string>, custom: Option<map<string, seq<string>>>)
    ensures var r := ListsToSave(name, edited, custom);
      && r[0] == (name, edited)
      && (custom.None? ==> r == [(name, edited)])
      && (custom.Some? ==> forall n :: n in KNOWN_LISTS && n != name ==> (n, StoredList(custom.value, n)) in r)
      && (forall i :: 1 <= i < |r| ==> r[i].0 in KNOWN_LISTS && r[i].0 != name)
      && (forall i, j :: 0 <= i < j < |r| ==> r[i].0 != r[j].0)
  {
    if custom.Some? {
      var m := custom.value;
      var a, b := KNOWN_LISTS[0], KNOWN_LISTS[1];
      assert KNOWN_LISTS[1..] == [b] && KNOWN_LISTS[1..][1..] == [];
      var others := (if a != name then [(a, StoredList(m, a))] else []) + (if b != name then [(b, StoredList(m, b))] else []);
      assert OtherLists(name, m, [b]) == (if b != name then [(b, StoredList(m, b))] else []);
      assert ListsToSave(name, edited, custom) == [(name, edited)] + others;
    }
  }

  /** The names of the lists collected so far. */
  function Names(lists: seq<(string, seq<string>)>): set<string>
  {
    set i | 0 <= i < |lists| :: lists[i].0
  }

  /** The lists in saving order, built as `save_patterns_to_config` builds
      its dict. */
  method CollectLists(name: string, edited: seq<string>, custom: Option<map<string, seq<string>>>)
    returns (lists: seq<(string, seq<string>)>)
    ensures lists == ListsToSave(name, edited, custom)
  {
    lists := [(name, edited)];
    if custom.None? {
      return;
    }
    var m := custom.value;
    var k := 0;
    while k < |KNOWN_LISTS|
      invariant k <= |KNOWN_LISTS|
      invariant lists + OtherLists(name, m, KNOWN_LISTS[k..]) == ListsToSave(name, edited, custom)
      invariant forall j :: 0 <= j < |lists| ==> lists[j].0 == name || lists[j].0 in KNOWN_LISTS[..k]
    {
      var n := KNOWN_LISTS[k];
      assert KNOWN_LISTS[k..] == [n] + KNOWN_LISTS[k + 1..];
      if n != name && n !in Names(lists) {
        lists := lists + [(n, StoredList(m, n))];
      }
      k := k + 1;
    }
  }

  /** The first lines of the file. */
  const FILE_HEADER := "# custom_patterns.py\n# This file stores user-defined regex patterns.\n"

  /** The pattern with every `'` preceded by a backslash. */
  function SafePattern(p: string): string
  {
    Replace(p, "'", "\\'")
  }

  /** The line written for a pattern: a raw string literal. */
  function PatternLine(p: string): string
  {
    "    r'" + SafePattern(p) + "',\n"
  }

  /** The lines written for the patterns, in order. */
  function PatternLines(ps: seq<string>): string
  {
    if ps == [] then "" else PatternLines(ps[..|ps| - 1]) + PatternLine(ps[|ps| - 1])
  }

  /** The line opening the block of a list. */
  function ListOpening(name: string): string
  {
    "\n" + name + " = [\n"
  }

  /** The block written for a list: its assignment, its patterns' lines, and
      the closing bracket. */
  function ListBlock(name: string, ps: seq<string>): string
  {
    ListOpening(name) + PatternLines(ps) + "]\n"
  }

  function ListBlocks(lists: seq<(string, seq<string>)>): string
  {
    if lists == [] then "" else ListBlocks(lists[..|lists| - 1]) + ListBlock(lists[|lists| - 1].0, lists[|lists| - 1].1)
  }

  /** The text of the custom-patterns file. */
  function PatternFile(lists: seq<(string, seq<string>)>): string
  {
    FILE_HEADER + ListBlocks(lists)
  }

  lemma Append3(c: string, a: string, b: string, d: string)
    ensures c + a + b + d == c + (a + b + d)
  {
  }

  lemma Append2(c: string, a: string, b: string)
    ensures c + a + b == c + (a + b)
  {
  }

  /** The file text, built piece by piece as `save_patterns_to_config`
      builds it. */
  method BuildPatternFile(lists: seq<(string, seq<string>)>) returns (content: string)
    ensures content == PatternFile(lists)
  {
    content := FILE_HEADER;
    var i := 0;
    while i < |lists|
      invariant i <= |lists|
      invariant content == PatternFile(lists[..i])
    {
      var (name, ps) := lists[i];
      ghost var before := content;
      content := content + "\n" + name + " = [\n";
      Append3(before, "\n", name, " = [\n");
      var j := 0;
      while j < |ps|
        invariant j <= |ps|
        invariant content == before + ListOpening(name) + PatternLines(ps[..j])
      {
        ghost var prev := content;
        var safe := Replace(ps[j], "'", "\\'");
        content := content + "    r'" + safe + "',\n";
        Append3(prev, "    r'", safe, "',\n");
        assert ps[..j + 1][..j] == ps[..j];
        Append2(before + ListOpening(name), PatternLines(ps[..j]), PatternLine(ps[j]));
        j := j + 1;
      }
      assert ps[..j] == ps;
      content := content + "]\n";
      Append2(before, ListOpening(name) + PatternLines(ps), "]\n");
      Append2(before, ListOpening(name), PatternLines(ps));
      assert lists[..i + 1][..i] == lists[..i];
      Append2(FILE_HEADER, ListBlocks(lists[..i]), ListBlock(name, ps));
      i := i + 1;
    }
    assert lists[..i] == lists;
  }

  // ---------------------------------------------------------------------------
  // Reading a saved pattern back

  /** How Python reads the body of a raw string literal `r'...'`: a
      backslash keeps itself and the character after it, and the literal ends
      at the first quote not so kept; a line end or the end of the text
      before that quote is a syntax error. Gives the value and what follows
      the closing quote. */
  function ReadRaw(s: string): Option<(string, string)>
    decreases |s|
  {
    if s == [] || s[0] == '\n' then None
    else if s[0] == '\'' then Some(([], s[1..]))
    else if s[0] == '\\' then
      if |s| < 2 then None
      else match ReadRaw(s[2..])
        case None => None
        case Some(vr) => Some((s[..2] + vr.0, vr.1))
    else match ReadRaw(s[1..])
      case None => None
      case Some(vr) => Some(([s[0]] + vr.0, vr.1))
  }

  lemma SafeCons(c: char, x: string)
    ensures SafePattern([c] + x) == (if c == '\'' then "\\'" else [c]) + SafePattern(x)
  {
    var s := [c] + x;
    assert s[1..] == x;
    if |s| >= 1 { assert s[..1] == [c]; }
  }

  /** A raw literal body with no quote, no bare line end, and every backslash
      paired with the character after it. */
  predicate RawBody(p: string)
    decreases |p|
  {
    if p == [] then true
    else if p[0] == '\\' then |p| >= 2 && p[1] != '\'' && RawBody(p[2..])
    else p[0] != '\'' && p[0] != '\n' && RawBody(p[1..])
  }

  lemma {:induction false} RawBodySafe(p: string)
    requires RawBody(p)
    ensures SafePattern(p) == p
    decreases |p|
  {
    if p != [] {
      if p[0] == '\\' {
        RawBodySafe(p[2..]);
        assert p[1..] == [p[1]] + p[2..];
        SafeCons(p[1], p[2..]);
      } else {
        RawBodySafe(p[1..]);
      }
      assert p == [p[0]] + p[1..];
      SafeCons(p[0], p[1..]);
    }
  }

  /** A saved line whose pattern is a well-formed raw body reads back as
      that pattern, leaving the rest of the line. */
  lemma PatternLineReadsBack(p: string)
    requires RawBody(p)
    ensures var line := PatternLine(p);
      line[..6] == "    r'" && ReadRaw(line[6..]) == Some((p, ",\n"))
  {
    var line := PatternLine(p);
    assert line[6..] == SafePattern(p) + "'" + ",\n";
    RawBodySafe(p);
    RawReadsBack(p, ",\n");
  }

  lemma ReadRawPlain(c: char, x: string, v: string, rest: string)
    requires c != '\n' && c != '\'' && c != '\\' && ReadRaw(x) == Some((v, rest))
    ensures ReadRaw([c] + x) == Some(([c] + v, rest))
  {
    assert ([c] + x)[1..] == x;
  }

  lemma ReadRawPair(c: char, x: string, v: string, rest: string)
    requires ReadRaw(x) == Some((v, rest))
    ensures ReadRaw(['\\', c] + x) == Some((['\\', c] + v, rest))
  {
    var s := ['\\', c] + x;
    assert s[2..] == x && s[..2] == ['\\', c];
  }

  /** A well-formed raw body reads back as itself, up to the quote that
      closes it. */
  lemma {:induction false} RawReadsBack(p: string, rest: string)
    requires RawBody(p)
    ensures ReadRaw(p + "'" + rest) == Some((p, rest))
    decreases |p|
  {
    if p == [] {
      assert p + "'" + rest == "'" + rest;
    } else if p[0] == '\\' {
      RawReadsBack(p[2..], rest);
      ReadRawPair(p[1], p[2..] + "'" + rest, p[2..], rest);
      assert p + "'" + rest == ['\\', p[1]] + (p[2..] + "'" + rest);
      assert p == ['\\', p[1]] + p[2..];
    } else {
      RawReadsBack(p[1..], rest);
      ReadRawPlain(p[0], p[1..] + "'" + rest, p[1..], rest);
      assert p + "'" + rest == [p[0]] + (p[1..] + "'" + rest);
      assert p == [p[0]] + p[1..];
    }
  }

  /** A saved pattern holding a quote does not read back as itself: the
      backslash put before the quote stays in the value. */
  lemma SavedQuoteChanges(rest: string)
    ensures SafePattern("'") == "\\'"
    ensures ReadRaw(SafePattern("'") + "'" + rest) == Some(("\\'", rest))
  {
    SafeCons('\'', "");
    assert ReadRaw("'" + rest) == Some(("", rest));
    ReadRawPair('\'', "'" + rest, "", rest);
    assert SafePattern("'") + "'" + rest == ['\\', '\''] + ("'" + rest);
  }

  /** Saving again what a saved `'` reads back as (`\'`) breaks the file:
      the doubled backslash closes the literal early and the quote left over
      opens a literal that runs into the line end. */
  lemma SavedQuoteTwiceBreaks()
    ensures SafePattern("\\'") == "\\\\'"
    ensures ReadRaw(SafePattern("\\'") + "',\n") == Some(("\\\\", "',\n"))
    ensures ReadRaw(",\n") == None
  {
    SafeCons('\\', "'");
    SafeCons('\'', "");
    assert ReadRaw("'" + "',\n") == Some(("", "',\n"));
    ReadRawPair('\\', "'" + "',\n", "", "',\n");
    assert SafePattern("\\'") + "',\n" == ['\\', '\\'] + ("'" + "',\n");
    assert ['\\', '\\'] + "" == "\\\\";
    assert ",\n"[1..] == "\n";
  }

  /** A saved pattern ending with a backslash leaves the file unreadable:
      its literal swallows the closing quote and runs into the line end. */
  lemma SavedBackslashBreaks()
    ensures SafePattern("\\") == "\\"
    ensures ReadRaw(SafePattern("\\") + "',\n") == None
  {
    SafeCons('\\', "");
    var s := "\\',\n";
    assert SafePattern("\\") + "',\n" == s;
    assert s[2..] == ",\n" && ",\n"[1..] == "\n";
    assert ReadRaw(",\n") == None;
  }

  /** A character as an ordinary string literal writes it: backslash,
      quote and line ends escaped. */
  function QuoteChar(c: char): string
  {
    if c == '\\' then "\\\\"
    else if c == '\'' then "\\'"
    else if c == '\n' then "\\n"
    else if c == '\r' then "\\r"
    else [c]
  }

  /** A pattern written as the body of an ordinary string literal. */
  function Quote(p: string): string
  {
    if p == [] then [] else QuoteChar(p[0]) + Quote(p[1..])
  }

  /** How Python reads the body of an ordinary literal `'...'` whose
      backslashes all start one of the escapes `\\`, `\'`, `\n` and `\r`. */
  function ReadQuoted(s: string): Option<(string, string)>
    decreases |s|
  {
    if s == [] || s[0] == '\n' then None
    else if s[0] == '\'' then Some(([], s[1..]))
    else if s[0] == '\\' then
      if |s| < 2 then None
      else
        var c := if s[1] == 'n' then '\n' else if s[1] == 'r' then '\r' else s[1];
        match ReadQuoted(s[2..])
        case None => None
        case Some(vr) => Some(([c] + vr.0, vr.1))
    else match ReadQuoted(s[1..])
      case None => None
      case Some(vr) => Some(([s[0]] + vr.0, vr.1))
  }

  lemma ReadQuotedChar(c: char, q: string)
    requires ReadQuoted(q).Some?
    ensures ReadQuoted(QuoteChar(c) + q) == Some(([c] + ReadQuoted(q).value.0, ReadQuoted(q).value.1))
  {
    var s := QuoteChar(c) + q;
    if |QuoteChar(c)| == 2 {
      assert s[2..] == q;
    } else {
      assert s[1..] == q;
    }
  }

  /** The line written for a pattern, quoted so that it reads back. */
  function QuotedLine(p: string): string
  {
    "    '" + Quote(p) + "',\n"
  }

  /** Every pattern, quotes, backslashes and line ends included, reads back
      from its literal as itself, and reading stops right after the literal. */
  lemma {:induction false} QuoteRoundTrip(p: string, rest: string)
    ensures ReadQuoted(Quote(p) + "'" + rest) == Some((p, rest))
    decreases |p|
  {
    if p == [] {
      assert Quote(p) + "'" + rest == "'" + rest;
    } else {
      var q := Quote(p[1..]) + "'" + rest;
      QuoteRoundTrip(p[1..], rest);
      ReadQuotedChar(p[0], q);
      assert Quote(p) + "'" + rest == QuoteChar(p[0]) + q;
      assert p == [p[0]] + p[1..];
    }
  }

  /** So a saved line, read from the start of its literal, gives the pattern
      back and leaves the rest of the line. */
  lemma QuotedLineReadsBack(p: string)
    ensures var line := QuotedLine(p);
      line[..5] == "    '" && ReadQuoted(line[5..]) == Some((p, ",\n"))
  {
    var line := QuotedLine(p);
    assert line[5..] == Quote(p) + "'" + ",\n";
    QuoteRoundTrip(p, ",\n");
  }
}

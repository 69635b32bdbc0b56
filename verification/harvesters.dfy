/**
 * The field harvester of data_harvesters.py: pattern lists, exclusion,
 * standardisation of a match, the sorted set of models found in a document's
 * text and file name, the author line, and the record of both.
 *
 * The regular-expression engine behind `re.findall` is the parameter
 * `findall` of the configuration; the one fixed pattern the harvester owns,
 * `^Author:\s*(.*)`, is modelled character by character.
 */
module Harvesters {
  import opened Text

  /** The display value of `models` when no model was harvested. */
  const NOT_FOUND := "Not Found"
  const MODEL_PATTERNS_NAME := "MODEL_PATTERNS"

  /** The user's `custom_patterns` module as an import finds it: absent or
      broken (ImportError, SyntaxError), or loaded with its pattern lists. */
  datatype CustomModule = Unimportable | Imported(lists: map<string, seq<string>>)

  /** The harvester's configuration: custom module, built-in model patterns,
      exclusion strings, unwanted authors, the standardisation mapping in its
      order, and the regex engine as `findall(pattern, content)`, which yields
      the case-insensitive matches of `pattern` in `content`, in order. */
  datatype HarvestConfig = HarvestConfig(
    custom: CustomModule,
    defaults: seq<string>,
    exclusions: seq<string>,
    unwanted: seq<string>,
    rules: seq<(string, string)>,
    findall: (string, string) -> seq<string>)

  /** The fields `harvest_all_data` returns. */
  datatype HarvestData = HarvestData(models: string, author: string)

  // ---------------------------------------------------------------------------
  // Pattern lists

  /** `getattr(custom_mod, name, [])`, or `[]` when the import failed. */
  function CustomPatterns(m: CustomModule, name: string): seq<string>
  {
    if m.Imported? && name in m.lists then m.lists[name] else []
  }

  /** `[p for p in defaults if p not in custom]`. */
  function Unlisted(defaults: seq<string>, custom: seq<string>): (r: seq<string>)
    ensures forall p :: p in custom ==> multiset(r)[p] == 0
    ensures forall p :: p !in custom ==> multiset(r)[p] == multiset(defaults)[p]
    ensures IsSubsequence(r, defaults)
  {
    if defaults == [] then []
    else
      var rest := Unlisted(defaults[1..], custom);
      assert defaults == [defaults[0]] + defaults[1..];
      if defaults[0] in custom then rest else [defaults[0]] + rest
  }

  /** `a` is `b` with some entries left out, the rest kept in order. */
  predicate IsSubsequence<T(==)>(a: seq<T>, b: seq<T>)
  {
    if a == [] then true
    else if b == [] then false
    else (a[0] == b[0] && IsSubsequence(a[1..], b[1..])) || IsSubsequence(a, b[1..])
  }

  /** `get_combined_patterns`: the custom list first, in its own order, then
      every built-in pattern the custom list lacks, in built-in order; each
      pattern keeps its multiplicity from the list it is taken from. */
  function CombinedPatterns(m: CustomModule, name: string, defaults: seq<string>): (r: seq<string>)
    ensures var c := CustomPatterns(m, name);
      && |c| <= |r| && r[..|c|] == c
      && (forall p :: p in r[|c|..] ==> p !in c)
      && IsSubsequence(r[|c|..], defaults)
      && (forall p :: p in c ==> multiset(r)[p] == multiset(c)[p])
      && (forall p :: p !in c ==> multiset(r)[p] == multiset(defaults)[p])
  {
    var c := CustomPatterns(m, name);
    var r := c + Unlisted(defaults, c);
    assert r[|c|..] == Unlisted(defaults, c);
    assert multiset(r) == multiset(c) + multiset(Unlisted(defaults, c));
    r
  }

  /** Filtering by an empty list keeps every entry. */
  lemma {:induction false} UnlistedByNothing(defaults: seq<string>)
    ensures Unlisted(defaults, []) == defaults
  {
    if defaults != [] {
      UnlistedByNothing(defaults[1..]);
      assert defaults == [defaults[0]] + defaults[1..];
    }
  }

  /** With no usable custom list the combined list is exactly the built-in one. */
  lemma CombinedWithoutCustom(m: CustomModule, name: string, defaults: seq<string>)
    requires m.Unimportable? || name !in m.lists
    ensures CombinedPatterns(m, name, defaults) == defaults
  {
    UnlistedByNothing(defaults);
  }

  // ---------------------------------------------------------------------------
  // Exclusion

  /** `any(p.lower() in text.lower() for p in exclusions)`, scanning in order. */
  predicate IsExcluded(exclusions: seq<string>, text: string)
  {
    exclusions != []
    && (Contains(Lower(text), Lower(exclusions[0])) || IsExcluded(exclusions[1..], text))
  }

  /** A string is excluded exactly when some exclusion string, lower-cased,
      occurs in it lower-cased; an empty exclusion list excludes nothing. */
  lemma {:induction false} ExcludedIff(exclusions: seq<string>, text: string)
    ensures IsExcluded(exclusions, text)
        <==> exists k :: 0 <= k < |exclusions| && Contains(Lower(text), Lower(exclusions[k]))
  {
    if exclusions != [] {
      ExcludedIff(exclusions[1..], text);
      if IsExcluded(exclusions[1..], text) {
        var k :| 0 <= k < |exclusions[1..]| && Contains(Lower(text), Lower(exclusions[1..][k]));
        assert exclusions[k + 1] == exclusions[1..][k];
      }
      if exists k :: 0 <= k < |exclusions| && Contains(Lower(text), Lower(exclusions[k])) {
        var k :| 0 <= k < |exclusions| && Contains(Lower(text), Lower(exclusions[k]));
        if k > 0 {
          assert exclusions[1..][k - 1] == exclusions[k];
        }
      }
    }
  }

  /** Exclusion ignores letter case: a string and its lower-cased form are
      excluded alike. */
  lemma ExclusionIgnoresCase(exclusions: seq<string>, text: string)
    ensures IsExcluded(exclusions, text) <==> IsExcluded(exclusions, Lower(text))
  {
    assert Lower(Lower(text)) == Lower(text);
    ExcludedIff(exclusions, text);
    ExcludedIff(exclusions, Lower(text));
  }

  // ---------------------------------------------------------------------------
  // Standardisation

  /** The standardisation rules applied once each, in mapping order. */
  function ApplyRules(rules: seq<(string, string)>, s: string): string
  {
    if rules == [] then s else ApplyRules(rules[1..], Replace(s, rules[0].0, rules[0].1))
  }

  /** The rules of a mapping split in two act as the first part followed by
      the second: each rule runs once, in order, on the previous rule's output. */
  lemma {:induction false} ApplyRulesSplit(r1: seq<(string, string)>, r2: seq<(string, string)>, s: string)
    ensures ApplyRules(r1 + r2, s) == ApplyRules(r2, ApplyRules(r1, s))
  {
    if r1 == [] {
      assert r1 + r2 == r2;
    } else {
      assert (r1 + r2)[1..] == r1[1..] + r2;
      ApplyRulesSplit(r1[1..], r2, Replace(s, r1[0].0, r1[0].1));
    }
  }

  /** What `clean_model_string` returns. */
  function CleanModel(rules: seq<(string, string)>, s: string): string
  {
    Strip(ApplyRules(rules, s))
  }

  /** `clean_model_string`: every rule rewrites the string once, in order,
      then the result is stripped, so it has no outer whitespace. */
  method CleanModelString(rules: seq<(string, string)>, s: string) returns (r: string)
    ensures r == CleanModel(rules, s)
    ensures r == [] || (!IsSpace(r[0]) && !IsSpace(r[|r| - 1]))
  {
    var m := s;
    for i := 0 to |rules|
      invariant ApplyRules(rules[i..], m) == ApplyRules(rules, s)
    {
      assert rules[i..][1..] == rules[i + 1..];
      m := Replace(m, rules[i].0, rules[i].1);
    }
    r := Strip(m);
    StripShape(m);
  }

  // ---------------------------------------------------------------------------
  // Models

  /** Python's `<` on strings: code points compared left to right, and a
      proper prefix before the longer string. */
  predicate Less(a: string, b: string)
  {
    if a == [] then b != []
    else b != [] && (a[0] < b[0] || (a[0] == b[0] && Less(a[1..], b[1..])))
  }

  lemma {:induction false} LessIrreflexive(a: string)
    ensures !Less(a, a)
  {
    if a != [] {
      LessIrreflexive(a[1..]);
    }
  }

  lemma {:induction false} LessTransitive(a: string, b: string, c: string)
    requires Less(a, b) && Less(b, c)
    ensures Less(a, c)
  {
    if a != [] && a[0] == b[0] && b[0] == c[0] {
      LessTransitive(a[1..], b[1..], c[1..]);
    }
  }

  lemma {:induction false} LessTotal(a: string, b: string)
    ensures a == b || Less(a, b) || Less(b, a)
  {
    if a != [] && b != [] && a[0] == b[0] {
      LessTotal(a[1..], b[1..]);
      if a[1..] == b[1..] {
        assert a == [a[0]] + a[1..] && b == [b[0]] + b[1..];
      }
    }
  }

  predicate StrictlyAscending(xs: seq<string>)
  {
    forall i, j :: 0 <= i < j < |xs| ==> Less(xs[i], xs[j])
  }

  predicate IsLeast(m: string, s: set<string>)
  {
    m in s && forall x :: x in s && x != m ==> Less(m, x)
  }

  lemma {:induction false} LeastExists(s: set<string>)
    requires s != {}
    ensures exists m :: IsLeast(m, s)
    decreases |s|
  {
    var x :| x in s;
    if s != {x} {
      LeastExists(s - {x});
      var m :| IsLeast(m, s - {x});
      LessTotal(x, m);
      if Less(x, m) {
        forall y | y in s && y != x
          ensures Less(x, y)
        {
          if y != m {
            LessTransitive(x, m, y);
          }
        }
        assert IsLeast(x, s);
      } else {
        assert IsLeast(m, s);
      }
    } else {
      assert IsLeast(x, s);
    }
  }

  lemma LeastUnique(s: set<string>)
    ensures forall m, n :: IsLeast(m, s) && IsLeast(n, s) ==> m == n
  {
    forall m, n | IsLeast(m, s) && IsLeast(n, s)
      ensures m == n
    {
      if m != n {
        assert Less(m, n) && Less(n, m);
        LessTransitive(m, n, m);
        LessIrreflexive(m);
      }
    }
  }

  /** `sorted(list(s))`: the members of `s` in ascending order. */
  function SortedList(s: set<string>): (r: seq<string>)
    ensures StrictlyAscending(r)
    ensures forall x :: x in r <==> x in s
    decreases |s|
  {
    if s == {} then []
    else
      LeastExists(s);
      LeastUnique(s);
      var m :| IsLeast(m, s);
      var rest := SortedList(s - {m});
      assert forall x :: x in rest ==> Less(m, x);
      [m] + rest
  }

  /** What a single match contributes: nothing when it is excluded, else its
      cleaned form. */
  function Outcome(cfg: HarvestConfig, m: string): Option<string>
  {
    if IsExcluded(cfg.exclusions, m) then None else Some(CleanModel(cfg.rules, m))
  }

  /** The contributions of the matches `ms`, each judged by `Outcome`. */
  ghost function Kept(cfg: HarvestConfig, ms: seq<string>): set<string>
  {
    if ms == [] then {}
    else
      var last := ms[|ms| - 1];
      Kept(cfg, ms[..|ms| - 1]) + (if Outcome(cfg, last).Some? then {Outcome(cfg, last).value} else {})
  }

  lemma KeptStep(cfg: HarvestConfig, ms: seq<string>, i: nat)
    requires i < |ms|
    ensures Kept(cfg, ms[..i + 1]) == Kept(cfg, ms[..i]) + (if Outcome(cfg, ms[i]).Some? then {Outcome(cfg, ms[i]).value} else {})
  {
    assert ms[..i + 1][..i] == ms[..i];
  }

  /** What the patterns `ps` harvest from one content string. */
  ghost function FoundIn(cfg: HarvestConfig, content: string, ps: seq<string>): set<string>
  {
    if ps == [] then {}
    else FoundIn(cfg, content, ps[..|ps| - 1]) + Kept(cfg, cfg.findall(ps[|ps| - 1], content))
  }

  lemma FoundInStep(cfg: HarvestConfig, content: string, ps: seq<string>, i: nat)
    requires i < |ps|
    ensures FoundIn(cfg, content, ps[..i + 1])
         == FoundIn(cfg, content, ps[..i]) + Kept(cfg, cfg.findall(ps[i], content))
  {
    assert ps[..i + 1][..i] == ps[..i];
  }

  /** What the patterns `ps` harvest from the content strings `cs`. */
  ghost function FoundAll(cfg: HarvestConfig, cs: seq<string>, ps: seq<string>): set<string>
  {
    if cs == [] then {}
    else FoundAll(cfg, cs[..|cs| - 1], ps) + FoundIn(cfg, cs[|cs| - 1], ps)
  }

  lemma FoundAllStep(cfg: HarvestConfig, cs: seq<string>, ps: seq<string>, i: nat)
    requires i < |cs|
    ensures FoundAll(cfg, cs[..i + 1], ps) == FoundAll(cfg, cs[..i], ps) + FoundIn(cfg, cs[i], ps)
  {
    assert cs[..i + 1][..i] == cs[..i];
  }

  /** The two strings searched: the text, and the file name with `_` read as a space. */
  function Sources(text: string, filename: string): seq<string>
  {
    [text, Replace(filename, "_", " ")]
  }

  function ModelPatterns(cfg: HarvestConfig): seq<string>
  {
    CombinedPatterns(cfg.custom, MODEL_PATTERNS_NAME, cfg.defaults)
  }

  /** The set `harvest_models` builds before sorting it. */
  ghost function HarvestedSet(cfg: HarvestConfig, text: string, filename: string): set<string>
  {
    FoundAll(cfg, Sources(text, filename), ModelPatterns(cfg))
  }

  /** `m` is a match of `p` in `c` that contributes `x`. */
  ghost predicate Yields(cfg: HarvestConfig, c: string, p: string, m: string, x: string)
  {
    m in cfg.findall(p, c) && Outcome(cfg, m) == Some(x)
  }

  lemma {:induction false} KeptIff(cfg: HarvestConfig, ms: seq<string>, x: string)
    ensures x in Kept(cfg, ms) <==> exists m :: m in ms && Outcome(cfg, m) == Some(x)
  {
    if ms != [] {
      var init, last := ms[..|ms| - 1], ms[|ms| - 1];
      KeptIff(cfg, init, x);
      assert ms == init + [last];
      if exists m :: m in ms && Outcome(cfg, m) == Some(x) {
        var m :| m in ms && Outcome(cfg, m) == Some(x);
        if m != last {
          assert m in init;
        }
      }
    }
  }

  lemma {:induction false} FoundInIff(cfg: HarvestConfig, c: string, ps: seq<string>, x: string)
    ensures x in FoundIn(cfg, c, ps) <==> exists p, m :: p in ps && Yields(cfg, c, p, m, x)
  {
    if ps != [] {
      var init, last := ps[..|ps| - 1], ps[|ps| - 1];
      FoundInIff(cfg, c, init, x);
      KeptIff(cfg, cfg.findall(last, c), x);
      assert ps == init + [last];
      if x in FoundIn(cfg, c, ps) && x !in FoundIn(cfg, c, init) {
        var m :| m in cfg.findall(last, c) && Outcome(cfg, m) == Some(x);
        assert Yields(cfg, c, last, m, x);
      }
      if exists p, m :: p in ps && Yields(cfg, c, p, m, x) {
        var p, m :| p in ps && Yields(cfg, c, p, m, x);
        if p != last {
          assert p in init;
        }
      }
    }
  }

  lemma {:induction false} FoundAllIff(cfg: HarvestConfig, cs: seq<string>, ps: seq<string>, x: string)
    ensures x in FoundAll(cfg, cs, ps) <==> exists c, p, m :: c in cs && p in ps && Yields(cfg, c, p, m, x)
  {
    if cs != [] {
      var init, last := cs[..|cs| - 1], cs[|cs| - 1];
      FoundAllIff(cfg, init, ps, x);
      FoundInIff(cfg, last, ps, x);
      assert cs == init + [last];
      if x in FoundAll(cfg, cs, ps) && x !in FoundAll(cfg, init, ps) {
        var p, m :| p in ps && Yields(cfg, last, p, m, x);
        assert last in cs;
      }
      if exists c, p, m :: c in cs && p in ps && Yields(cfg, c, p, m, x) {
        var c, p, m :| c in cs && p in ps && Yields(cfg, c, p, m, x);
        if c != last {
          assert c in init;
        }
      }
    }
  }

  /** A harvested model is exactly the cleaned form of some match, not itself
      excluded, of some combined pattern in the text or in the file name with
      underscores read as spaces. */
  lemma HarvestedIff(cfg: HarvestConfig, text: string, filename: string, x: string)
    ensures x in HarvestedSet(cfg, text, filename)
        <==> exists c, p, m :: c in Sources(text, filename) && p in ModelPatterns(cfg)
                            && Yields(cfg, c, p, m, x)
  {
    FoundAllIff(cfg, Sources(text, filename), ModelPatterns(cfg), x);
  }

  /** `harvest_models`: the standardised, non-excluded matches of every
      combined pattern in the text and the file name, sorted, each once. */
  method HarvestModels(cfg: HarvestConfig, text: string, filename: string) returns (models: seq<string>)
    ensures StrictlyAscending(models)
    ensures forall x :: x in models <==> x in HarvestedSet(cfg, text, filename)
    ensures models == SortedList(HarvestedSet(cfg, text, filename))
  {
    var found: set<string> := {};
    var patterns := CombinedPatterns(cfg.custom, MODEL_PATTERNS_NAME, cfg.defaults);
    var contents := [text, Replace(filename, "_", " ")];
    for ci := 0 to |contents|
      invariant found == FoundAll(cfg, contents[..ci], patterns)
    {
      var content := contents[ci];
      ghost var before := found;
      for pi := 0 to |patterns|
        invariant found == before + FoundIn(cfg, content, patterns[..pi])
      {
        var matches := cfg.findall(patterns[pi], content);
        ghost var inner := found;
        for mi := 0 to |matches|
          invariant found == inner + Kept(cfg, matches[..mi])
        {
          KeptStep(cfg, matches, mi);
          if !IsExcluded(cfg.exclusions, matches[mi]) {
            var cleaned := CleanModelString(cfg.rules, matches[mi]);
            found := found + {cleaned};
          }
        }
        assert matches[..|matches|] == matches;
        FoundInStep(cfg, content, patterns, pi);
      }
      assert patterns[..|patterns|] == patterns;
      FoundAllStep(cfg, contents, patterns, ci);
    }
    assert contents[..2] == contents;
    models := SortedList(found);
  }

  // ---------------------------------------------------------------------------
  // Author

  /** `^Author:` matches at `i` (MULTILINE, IGNORECASE): `i` begins the text
      or follows a newline, and the next seven characters are `author:` in
      any letter case. */
  predicate LabelAt(text: string, i: int)
  {
    0 <= i && i + 7 <= |text| && (i == 0 || text[i - 1] == '\n')
    && Lower(text[i..i + 7]) == "author:"
  }

  /** Where `re.search` finds the pattern: the first label at or after `from`. */
  function FirstLabel(text: string, from: nat): (r: Option<nat>)
    ensures r.Some? ==> from <= r.value && LabelAt(text, r.value)
                        && forall j :: from <= j < r.value ==> !LabelAt(text, j)
    ensures r.None? ==> forall j :: from <= j ==> !LabelAt(text, j)
    decreases |text| - from
  {
    if from + 7 > |text| then None
    else if LabelAt(text, from) then Some(from)
    else FirstLabel(text, from + 1)
  }

  /** The end of the run of whitespace starting at `i` (`\s*`, greedy). */
  function SkipSpace(text: string, i: nat): (k: nat)
    requires i <= |text|
    ensures i <= k <= |text| && AllSpace(text[i..k])
    ensures k == |text| || !IsSpace(text[k])
    decreases |text| - i
  {
    if i < |text| && IsSpace(text[i]) then SkipSpace(text, i + 1) else i
  }

  /** The end of the line holding `i` (`.*` stops at a newline). */
  function LineEnd(text: string, i: nat): (k: nat)
    requires i <= |text|
    ensures i <= k <= |text| && '\n' !in text[i..k]
    ensures k == |text| || text[k] == '\n'
    decreases |text| - i
  {
    if i < |text| && text[i] != '\n' then LineEnd(text, i + 1) else i
  }

  /** Group 1 of `^Author:\s*(.*)`, if the pattern is found. */
  function AuthorCapture(text: string): Option<string>
  {
    match FirstLabel(text, 0)
    case None => None
    case Some(i) =>
      var k := SkipSpace(text, i + 7);
      Some(text[k..LineEnd(text, k)])
  }

  /** `harvest_author`: the stripped capture, or `""` when no line starts with
      `Author:` or the name is one of the unwanted authors. */
  function HarvestAuthor(text: string, unwanted: seq<string>): (r: string)
    ensures r == [] || r !in unwanted
    ensures '\n' !in r
    ensures r == [] || (!IsSpace(r[0]) && !IsSpace(r[|r| - 1]))
    ensures (forall j :: !LabelAt(text, j)) ==> r == []
  {
    match AuthorCapture(text)
    case None => []
    case Some(c) =>
      var a := Strip(c);
      StripShape(c);
      if a !in unwanted then a else []
  }

  /** The search finds the first label in the text. */
  lemma FirstLabelIsFirst(text: string, i: nat)
    requires LabelAt(text, i) && forall j :: 0 <= j < i ==> !LabelAt(text, j)
    ensures FirstLabel(text, 0) == Some(i)
  {
    var f := FirstLabel(text, 0);
    assert f.Some? && f.value <= i;
    assert !LabelAt(text, f.value) || f.value >= i;
  }

  /** When a line starts with `Author:`, the first such line decides: the
      author is what follows the label and any whitespace up to the end of
      that line, stripped, unless that name is unwanted. */
  lemma AuthorFromFirstLabel(text: string, unwanted: seq<string>, i: nat)
    requires LabelAt(text, i) && forall j :: 0 <= j < i ==> !LabelAt(text, j)
    ensures var k := SkipSpace(text, i + 7);
      var name := Strip(text[k..LineEnd(text, k)]);
      HarvestAuthor(text, unwanted) == if name in unwanted then [] else name
  {
    FirstLabelIsFirst(text, i);
  }

  // ---------------------------------------------------------------------------
  // All fields

  /** The `models` field: the `", "`-join of the harvested list, or
      `"Not Found"` when that join is empty. */
  function ModelsField(models: seq<string>): string
  {
    var joined := Join(", ", models);
    if joined == [] then NOT_FOUND else joined
  }

  /** The field reads `"Not Found"` when nothing was harvested, when the only
      model is the empty string, and when the only model is the text
      `Not Found` itself; in no other case. */
  lemma NotFoundIff(models: seq<string>)
    ensures ModelsField(models) == NOT_FOUND <==> models == [] || models == [[]] || models == [NOT_FOUND]
  {
    JoinEmptyIff(", ", models);
    if |models| > 1 {
      var j := Join(", ", models);
      assert j[|models[0]|] == ',';
      assert ',' !in NOT_FOUND;
    }
  }

  /** `harvest_all_data`. */
  method HarvestAllData(cfg: HarvestConfig, text: string, filename: string) returns (data: HarvestData)
    ensures data == HarvestAll(cfg, text, filename)
  {
    var models := HarvestModels(cfg, text, filename);
    var joined := Join(", ", models);
    data := HarvestData(if joined == [] then NOT_FOUND else joined, HarvestAuthor(text, cfg.unwanted));
  }

  /** A document's models read `"Not Found"` exactly when nothing but the
      empty string was harvested from it, or only the text `Not Found`. */
  lemma HarvestedNothing(cfg: HarvestConfig, text: string, filename: string)
    ensures HarvestAll(cfg, text, filename).models == NOT_FOUND
        <==> HarvestedSet(cfg, text, filename) <= {[]} || HarvestedSet(cfg, text, filename) == {NOT_FOUND}
  {
    var found := HarvestedSet(cfg, text, filename);
    var models := SortedList(found);
    NotFoundIff(models);
    if models == [] {
      assert found == {};
    }
    if found <= {[]} && models != [] {
      SortedSingle(found, []);
    }
    if found == {NOT_FOUND} {
      SortedSingle(found, NOT_FOUND);
    }
  }

  /** A set of one string sorts to the list of that string. */
  lemma SortedSingle(s: set<string>, x: string)
    requires s <= {x} && s != {}
    ensures SortedList(s) == [x]
  {
    var r := SortedList(s);
    assert r[0] in s;
  }

  /** The record `harvest_all_data` returns, as a function of its inputs. */
  ghost function HarvestAll(cfg: HarvestConfig, text: string, filename: string): HarvestData
  {
    HarvestData(ModelsField(SortedList(HarvestedSet(cfg, text, filename))), HarvestAuthor(text, cfg.unwanted))
  }
}

/**
 * The template editor: the placeholder scan behind the variable badges,
 * the sample preview, and the submit and duplicate actions.
 */
module Templates {
  import opened Wrappers
  import opened Seqs
  import opened Text
  import opened DataStore

  /** A placeholder name: one or more `\w` characters. */
  predicate IsName(n: string)
  {
    |n| >= 1 && forall i :: 0 <= i < |n| ==> IsWordChar(n[i])
  }

  /** `"{" + n + "}"` */
  function Placeholder(n: string): string
  {
    "{" + n + "}"
  }

  /** Length of the longest prefix of `s` made of `\w` characters. */
  function WordRun(s: string): (n: nat)
    ensures n <= |s|
    ensures forall i :: 0 <= i < n ==> IsWordChar(s[i])
    ensures n < |s| ==> !IsWordChar(s[n])
  {
    if s != [] && IsWordChar(s[0]) then 1 + WordRun(s[1..]) else 0
  }

  /**
   * `/\{(\w+)\}/` tried at the start of `s`: the length of the name when it
   * matches. `\w+` is greedy, and giving characters back cannot help
   * because the next character would then be a `\w`, not `}`.
   */
  function MatchAt(s: string): (r: Option<nat>)
    ensures r.Some? ==> 1 + r.value < |s| && s[0] == '{' && IsName(s[1..1 + r.value]) && s[1 + r.value] == '}'
    ensures r.Some? ==> forall i :: 0 < i < r.value + 2 ==> s[i] != '{'
  {
    if s == [] || s[0] != '{' then None
    else
      var n := WordRun(s[1..]);
      if n >= 1 && 1 + n < |s| && s[1 + n] == '}' then Some(n) else None
  }

  /**
   * `content.match(/\{(\w+)\}/g)` with each match's braces sliced off:
   * the scan tries each position left to right and resumes after a match.
   */
  function Matches(s: string): (names: seq<string>)
    ensures forall x :: x in names ==> IsName(x) && Includes(s, Placeholder(x))
    decreases |s|
  {
    if s == [] then []
    else match MatchAt(s)
      case Some(n) =>
        var name := s[1..1 + n];
        var rest := Matches(s[n + 2..]);
        assert OccursAt(s, Placeholder(name), 0) by {
          assert s[0..n + 2] == "{" + name + "}";
        }
        forall i | 0 <= i < |rest| ensures Includes(s, Placeholder(rest[i])) {
          var j :| 0 <= j <= |s[n + 2..]| && OccursAt(s[n + 2..], Placeholder(rest[i]), j);
          OccursInSuffix(s, n + 2, Placeholder(rest[i]), j);
        }
        [name] + rest
      case None =>
        var rest := Matches(s[1..]);
        forall i | 0 <= i < |rest| ensures Includes(s, Placeholder(rest[i])) {
          var j :| 0 <= j <= |s[1..]| && OccursAt(s[1..], Placeholder(rest[i]), j);
          OccursInSuffix(s, 1, Placeholder(rest[i]), j);
        }
        rest
  }

  /** `extractVariables`: the distinct placeholder names, in order of first appearance. */
  function ExtractVariables(content: string): (vars: seq<string>)
    ensures forall i, j :: 0 <= i < j < |vars| ==> vars[i] != vars[j]
    ensures forall i :: 0 <= i < |vars| ==> IsName(vars[i]) && Includes(content, Placeholder(vars[i]))
  {
    Distinct(Matches(content))
  }

  /** The pieces of a placeholder found at position `p`. */
  lemma PlaceholderParts(s: string, name: string, p: int)
    requires OccursAt(s, Placeholder(name), p)
    ensures 0 <= p && p + |name| + 2 <= |s|
    ensures s[p] == '{' && s[p + 1..p + 1 + |name|] == name && s[p + 1 + |name|] == '}'
  {
    var ph := Placeholder(name);
    assert s[p..p + |ph|] == ph;
    forall k | 0 <= k < |ph| ensures s[p + k] == ph[k] {
      assert s[p..p + |ph|][k] == s[p + k];
    }
    forall k | 0 <= k < |name| ensures s[p + 1 + k] == name[k] {
      assert ph[1 + k] == name[k];
    }
  }

  /** A placeholder at the very start of `s` is what the scan matches there. */
  lemma MatchAtPlaceholder(s: string, name: string)
    requires IsName(name) && OccursAt(s, Placeholder(name), 0)
    ensures MatchAt(s) == Some(|name|)
  {
    PlaceholderParts(s, name, 0);
    assert forall i :: 0 <= i < |name| ==> s[1..][i] == name[i];
    WordRunExact(s[1..], |name|);
  }

  /** Every occurrence of a `{word}` placeholder is found by the scan. */
  lemma {:induction false} OccurrenceMatched(s: string, name: string, p: int)
    requires IsName(name) && OccursAt(s, Placeholder(name), p)
    ensures name in Matches(s)
    decreases |s|
  {
    PlaceholderParts(s, name, p);
    if p == 0 {
      MatchAtPlaceholder(s, name);
      MatchesUnfold(s, |name|);
      TailOfCons(s[1..1 + |name|], Matches(s[|name| + 2..]));
    } else {
      match MatchAt(s)
      case Some(n) =>
        // Inside the match there are only `\w` characters and the closing brace, no `{`.
        NoBraceInsideMatch(s, n, p);
        OccursAfter(s, n + 2, Placeholder(name), p);
        OccurrenceMatched(s[n + 2..], name, p - (n + 2));
        MatchesUnfold(s, n);
        InTail(s[1..1 + n], Matches(s[n + 2..]), name);
      case None =>
        OccursAfter(s, 1, Placeholder(name), p);
        OccurrenceMatched(s[1..], name, p - 1);
        assert Matches(s) == Matches(s[1..]);
    }
  }

  /** What the tail holds, the whole sequence holds. */
  lemma InTail(x: string, xs: seq<string>, y: string)
    requires y in xs
    ensures y in [x] + xs
  {
    var k :| 0 <= k < |xs| && xs[k] == y;
    assert ([x] + xs)[k + 1] == y;
  }

  /** A run of exactly `n` word characters followed by a non-word character. */
  lemma WordRunExact(s: string, n: nat)
    requires n < |s| && (forall i :: 0 <= i < n ==> IsWordChar(s[i])) && !IsWordChar(s[n])
    ensures WordRun(s) == n
  {
  }

  /**
   * A name is reported exactly when it is a `\w+` word that occurs between
   * braces somewhere in the content.
   */
  lemma ExtractVariablesIff(content: string, name: string)
    ensures name in ExtractVariables(content) <==> IsName(name) && Includes(content, Placeholder(name))
  {
    if IsName(name) && Includes(content, Placeholder(name)) {
      var p :| 0 <= p <= |content| && OccursAt(content, Placeholder(name), p);
      OccurrenceMatched(content, name, p);
      var m := Matches(content);
      var k :| 0 <= k < |m| && m[k] == name;
      assert m[k] in Distinct(m);
    }
  }

  /**
   * The names are listed in the order in which their placeholders first
   * occur in the content: wherever the placeholder of a later name occurs,
   * the placeholder of every earlier name has already occurred before it.
   */
  lemma ExtractVariablesOrder(content: string)
    ensures var vars := ExtractVariables(content);
      forall i, j, p :: 0 <= i < j < |vars| && OccursAt(content, Placeholder(vars[j]), p) ==>
        OccursBefore(content, Placeholder(vars[i]), p)
  {
    var vars := ExtractVariables(content);
    forall i, j, p | 0 <= i < j < |vars| && OccursAt(content, Placeholder(vars[j]), p)
      ensures OccursBefore(content, Placeholder(vars[i]), p)
    {
      ExtractVariablesOrderAt(content, i, j, p);
    }
  }

  /** One pair of names of `ExtractVariablesOrder`. */
  lemma ExtractVariablesOrderAt(content: string, i: nat, j: nat, p: int)
    requires i < j < |ExtractVariables(content)|
    requires OccursAt(content, Placeholder(ExtractVariables(content)[j]), p)
    ensures OccursBefore(content, Placeholder(ExtractVariables(content)[i]), p)
  {
    var m, vars := Matches(content), ExtractVariables(content);
    assert vars == Distinct(m);
    DistinctFirstAppearance(m);
    assert vars[i] in m && vars[j] in m;
    MatchesOrder(content, vars[i], vars[j], p);
  }

  /**
   * The scan reports names in the order of their occurrences: if `a` is
   * first reported before `b`, every occurrence of `b`'s placeholder comes
   * after an occurrence of `a`'s.
   */
  lemma {:induction false} MatchesOrder(s: string, a: string, b: string, p: int)
    requires a in Matches(s) && b in Matches(s)
    requires FirstIndex(Matches(s), a) < FirstIndex(Matches(s), b)
    requires OccursAt(s, Placeholder(b), p)
    ensures OccursBefore(s, Placeholder(a), p)
    decreases |s|, 2
  {
    var m := Matches(s);
    assert IsName(b) by {
      var k :| 0 <= k < |m| && m[k] == b;
    }
    if p == 0 {
      PlaceholderAtStartIsFirst(s, b);
      assert false;
    }
    PlaceholderParts(s, b, p);
    match MatchAt(s)
    case Some(n) =>
      MatchesUnfold(s, n);
      MatchesOrderAfterMatch(s, a, b, p, n, m, Matches(s[n + 2..]));
    case None =>
      assert m == Matches(s[1..]);
      OccursAfter(s, 1, Placeholder(b), p);
      MatchesOrder(s[1..], a, b, p - 1);
      OccursBeforeInSuffix(s, 1, Placeholder(a), p);
  }

  /**
   * `MatchesOrder` when the scan matches a placeholder at the start of `s`
   * and so reports `m`: that name, then `r` from behind the match.
   */
  lemma {:induction false} MatchesOrderAfterMatch(s: string, a: string, b: string, p: int, n: nat, m: seq<string>, r: seq<string>)
    requires MatchAt(s) == Some(n) && r == Matches(s[n + 2..]) && m == [s[1..1 + n]] + r
    requires a in m && b in m && FirstIndex(m, a) < FirstIndex(m, b)
    requires 0 < p && OccursAt(s, Placeholder(b), p) && s[p] == '{'
    ensures OccursBefore(s, Placeholder(a), p)
    decreases |s|, 1
  {
    TailOfCons(s[1..1 + n], r);
    if a == m[0] {
      MatchAtOccurs(s, n);
    } else {
      FirstIndexPastHead(m, a, b);
      NoBraceInsideMatch(s, n, p);
      MatchesOrderInSuffix(s, n + 2, s[n + 2..], r, a, b, p);
    }
  }

  /** `MatchesOrder` for two names the scan reports, as `r`, in the suffix `t` of `s` from `k`. */
  lemma {:induction false} MatchesOrderInSuffix(s: string, k: nat, t: string, r: seq<string>, a: string, b: string, p: int)
    requires 0 < k <= p && k <= |s| && t == s[k..] && OccursAt(s, Placeholder(b), p)
    requires r == Matches(t) && a in r && b in r && FirstIndex(r, a) < FirstIndex(r, b)
    ensures OccursBefore(s, Placeholder(a), p)
    decreases |s|, 0
  {
    OccursAfter(s, k, Placeholder(b), p);
    MatchesOrder(t, a, b, p - k);
    OccursBeforeInSuffix(s, k, Placeholder(a), p);
  }

  /** A `{` after the start of a match lies behind it. */
  lemma NoBraceInsideMatch(s: string, n: nat, p: int)
    requires MatchAt(s) == Some(n) && 0 < p < |s| && s[p] == '{'
    ensures n + 2 <= p
  {
  }

  /** The scan's step after a match at the start. */
  lemma MatchesUnfold(s: string, n: nat)
    requires MatchAt(s) == Some(n)
    ensures Matches(s) == [s[1..1 + n]] + Matches(s[n + 2..])
  {
  }

  /** The tail of a list with a head put in front. */
  lemma TailOfCons(x: string, xs: seq<string>)
    ensures ([x] + xs)[0] == x && ([x] + xs)[1..] == xs
  {
  }

  /** What the scan matches at the start of `s` is an occurrence of that name's placeholder. */
  lemma MatchAtOccurs(s: string, n: nat)
    requires MatchAt(s) == Some(n)
    ensures OccursAt(s, Placeholder(s[1..1 + n]), 0)
  {
    var ph := Placeholder(s[1..1 + n]);
    assert |ph| == n + 2;
    forall k | 0 <= k < n + 2 ensures s[k] == ph[k] {
      if 0 < k < n + 1 {
        assert ph[k] == s[1..1 + n][k - 1];
      }
    }
    assert s[0..n + 2] == ph;
  }

  /** A placeholder at the very start is the first name the scan reports. */
  lemma PlaceholderAtStartIsFirst(s: string, name: string)
    requires IsName(name) && OccursAt(s, Placeholder(name), 0)
    ensures Matches(s) != [] && Matches(s)[0] == name
  {
    MatchAtPlaceholder(s, name);
    PlaceholderParts(s, name, 0);
  }

  /** Braces around nothing, or around text with a space, are not placeholders. */
  lemma ExtractVariablesRejects()
    ensures ExtractVariables("{}") == []
    ensures ExtractVariables("{a b}") == []
  {
    assert MatchAt("{}") == None by {
      assert WordRun("{}"[1..]) == 0;
    }
    assert "{}"[1..] == "}";
    assert MatchAt("{a b}") == None by {
      assert "{a b}"[1..] == "a b}";
      assert WordRun("a b}"[1..]) == 0;
    }
    assert "{a b}"[1..] == "a b}";
    assert "a b}"[1..] == " b}";
    assert " b}"[1..] == "b}";
    assert "b}"[1..] == "}";
  }

  // ---------------------------------------------------------------------
  // Preview

  const NamePattern := "{name}"
  const UsernamePattern := "{username}"
  const CompanyPattern := "{company}"

  /** The first substitution of `previewContent`. */
  function PreviewName(s: string): string
  {
    ReplaceAll(s, NamePattern, "John Doe")
  }

  /** The second substitution of `previewContent`. */
  function PreviewUsername(s: string): string
  {
    ReplaceAll(s, UsernamePattern, "@johndoe")
  }

  /** `previewContent`: the three sample substitutions, applied in turn. */
  function PreviewContent(content: string): string
  {
    ReplaceAll(PreviewUsername(PreviewName(content)), CompanyPattern, "ABC Company")
  }

  /** What the preview puts in place of a chunk: a sample value for the three known placeholders, the chunk itself otherwise. */
  function Sample(c: string): string
  {
    if c == NamePattern then "John Doe"
    else if c == UsernamePattern then "@johndoe"
    else if c == CompanyPattern then "ABC Company"
    else c
  }

  /**
   * A chunk, followed by `rest`, that every substitution copies: none of the
   * three placeholders occurs where it starts in the text that substitution
   * scans, and no later character of it is a `{`.
   */
  predicate Inert(c: string, rest: string)
  {
    && Copied(c, rest, NamePattern)
    && Copied(c, PreviewName(rest), UsernamePattern)
    && Copied(c, PreviewUsername(PreviewName(rest)), CompanyPattern)
  }

  /** Text without any `{` is shown as it is. */
  lemma PreviewPlain(x: string)
    requires '{' !in x
    ensures PreviewContent(x) == x
  {
    ReplaceAllPassesOver(x, "", NamePattern, "John Doe");
    ReplaceAllPassesOver(x, "", UsernamePattern, "@johndoe");
    ReplaceAllPassesOver(x, "", CompanyPattern, "ABC Company");
    assert x + "" == x;
  }

  /**
   * The preview, read chunk by chunk: brace-free text is kept, each of the
   * three known placeholders becomes its sample value and any other chunk
   * is kept; the rest of the content is previewed in the same way.
   */
  lemma PreviewChunk(x: string, c: string, rest: string)
    requires '{' !in x
    requires c == NamePattern || c == UsernamePattern || c == CompanyPattern || Inert(c, rest)
    ensures PreviewContent(x + c + rest) == x + Sample(c) + PreviewContent(rest)
  {
    var np, up, cp := NamePattern, UsernamePattern, CompanyPattern;
    var r1 := PreviewName(rest);
    var r2 := PreviewUsername(r1);
    var s1 := if c == np then "John Doe" else c;
    assert c == np || Copied(c, rest, np) by {
      if c == up || c == cp {
        MismatchCopied(c, rest, np, 1);
      }
    }
    ReplaceAllStep(x, c, rest, np, "John Doe");
    var s2 := if s1 == up then "@johndoe" else s1;
    assert s1 == up || Copied(s1, r1, up) by {
      if c == np || c == cp {
        MismatchCopied(s1, r1, up, if c == np then 0 else 1);
      }
    }
    ReplaceAllStep(x, s1, r1, up, "@johndoe");
    assert s2 == cp || Copied(s2, r2, cp) by {
      if c == np || c == up {
        MismatchCopied(s2, r2, cp, 0);
      }
    }
    ReplaceAllStep(x, s2, r2, cp, "ABC Company");
  }

  /**
   * Cutting the content before every `{` gives chunks the preview copies,
   * except those that start with one of the three placeholders: a chunk
   * that starts with `{` and runs up to the next `{` or the end is copied
   * whenever it does not start with a known placeholder, even when it is a
   * lone `{` or an unfinished placeholder.
   */
  lemma InertChunk(c: string, rest: string)
    requires c != [] && '{' !in c[1..]
    requires !StartsWith(c, NamePattern) && !StartsWith(c, UsernamePattern) && !StartsWith(c, CompanyPattern)
    requires rest == [] || rest[0] == '{'
    ensures Inert(c, rest)
  {
    var np, up, cp := NamePattern, UsernamePattern, CompanyPattern;
    var r1 := PreviewName(rest);
    var r2 := PreviewUsername(r1);
    PreviewPassesHead(rest);
    assert forall k :: 1 <= k < |np| ==> np[k] != '{';
    NextCharCopied(c, rest, np);
    assert forall k :: 1 <= k < |up| ==> up[k] != '{' && up[k] != 'J';
    NextCharCopied(c, r1, up);
    assert forall k :: 1 <= k < |cp| ==> cp[k] != '{' && cp[k] != 'J' && cp[k] != '@';
    NextCharCopied(c, r2, cp);
  }

  /** What the first two substitutions make of text that is empty or starts with `{`: empty text, or text that starts with `{`, `J` or `@`. */
  lemma PreviewPassesHead(rest: string)
    requires rest == [] || rest[0] == '{'
    ensures var r1 := PreviewName(rest);
      (rest == [] ==> r1 == []) && (rest != [] ==> r1 != [] && (r1[0] == '{' || r1[0] == 'J'))
    ensures var r2 := PreviewUsername(PreviewName(rest));
      (rest == [] ==> r2 == []) && (rest != [] ==> r2 != [] && (r2[0] == '{' || r2[0] == 'J' || r2[0] == '@'))
  {
    if rest != [] {
      var r1 := PreviewName(rest);
      ReplaceAllFront(rest, NamePattern, "John Doe");
      assert r1 != [] && (r1[0] == '{' || r1[0] == 'J');
      ReplaceAllFront(r1, UsernamePattern, "@johndoe");
    }
  }

  /** A doubled brace keeps one brace on each side of the sample value. */
  lemma PreviewDoubleBrace()
    ensures PreviewContent("{{name}}") == "{John Doe}"
  {
    var inner := "{name}}";
    PreviewOuterBrace(inner);
    assert "{" + inner == "{{name}}";
    PreviewNameThenBrace();
    assert "{" + "John Doe}" == "{John Doe}";
  }

  /** A lone `{` in front of text that starts with `{` is kept. */
  lemma PreviewOuterBrace(rest: string)
    requires rest != [] && rest[0] == '{'
    ensures PreviewContent("{" + rest) == "{" + PreviewContent(rest)
  {
    InertChunk("{", rest);
    PreviewChunk("", "{", rest);
    assert "" + "{" + rest == "{" + rest;
  }

  /** `{name}` followed by a closing brace. */
  lemma PreviewNameThenBrace()
    ensures PreviewContent("{name}}") == "John Doe}"
  {
    PreviewChunk("", NamePattern, "}");
    assert "" + NamePattern + "}" == "{name}}";
    PreviewPlain("}");
  }

  /** An unfinished placeholder at the end is shown as it is. */
  lemma PreviewTrailingBrace()
    ensures PreviewContent("Hi {") == "Hi {"
  {
    InertChunk("{", "");
    PreviewChunk("Hi ", "{", "");
    assert "Hi " + "{" + "" == "Hi {";
    PreviewPlain("");
  }

  // ---------------------------------------------------------------------
  // Actions

  /** The name and content fields of the template dialog. */
  datatype TemplateForm = TemplateForm(name: string, content: string)

  /** `handleSubmit`'s guard: both fields must be filled in. */
  predicate FormComplete(f: TemplateForm)
  {
    f.name != "" && f.content != ""
  }

  /** What an accepted submit stores: the form's fields and the extracted variables. */
  function SubmittedDraft(f: TemplateForm): (d: TemplateDraft)
    ensures d.name == f.name && d.content == f.content
    ensures forall v :: v in d.variables <==> IsName(v) && Includes(f.content, Placeholder(v))
  {
    forall v ensures v in ExtractVariables(f.content) <==> IsName(v) && Includes(f.content, Placeholder(v)) {
      ExtractVariablesIff(f.content, v);
    }
    TemplateDraft(f.name, f.content, ExtractVariables(f.content))
  }

  /** The patch an edit applies: name, content and variables, nothing else. */
  function SubmittedPatch(f: TemplateForm): (p: TemplatePatch)
    ensures p.id.None? && p.createdAt.None?
    ensures p.name == Some(f.name) && p.content == Some(f.content)
    ensures p.variables == Some(ExtractVariables(f.content))
  {
    TemplatePatch(None, Some(f.name), Some(f.content), Some(ExtractVariables(f.content)), None)
  }

  /**
   * `handleSubmit`: an incomplete form changes nothing; otherwise the
   * template being edited is updated, or a new one is appended.
   */
  method HandleSubmit(store: Store, f: TemplateForm, editing: Option<Id>, newId: Id, now: Time)
    returns (accepted: bool)
    modifies store`templates
    ensures accepted == FormComplete(f)
    ensures !accepted ==> store.templates == old(store.templates)
    ensures accepted && editing.Some? ==>
      store.templates == UpdateTemplates(old(store.templates), editing.value, SubmittedPatch(f))
    ensures accepted && editing.None? ==>
      store.templates == old(store.templates) + [NewTemplate(SubmittedDraft(f), newId, now)]
  {
    if !FormComplete(f) {
      return false;
    }
    match editing {
      case Some(id) => store.UpdateTemplate(id, SubmittedPatch(f));
      case None => store.AddTemplate(SubmittedDraft(f), newId, now);
    }
    return true;
  }

  /** What `handleDuplicate` adds: the same content and variables under the name with " (Copy)" appended. */
  function DuplicateDraft(t: Template): (d: TemplateDraft)
    ensures d.name == t.name + " (Copy)"
    ensures d.content == t.content && d.variables == t.variables
  {
    TemplateDraft(t.name + " (Copy)", t.content, t.variables)
  }

  /** `handleDuplicate`: appends one copy of the template with a fresh id. */
  method HandleDuplicate(store: Store, t: Template, newId: Id, now: Time)
    modifies store`templates
    ensures store.templates == old(store.templates) + [NewTemplate(DuplicateDraft(t), newId, now)]
    ensures |store.templates| == |old(store.templates)| + 1
  {
    store.AddTemplate(DuplicateDraft(t), newId, now);
  }
}

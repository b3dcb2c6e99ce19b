/**
 * The calculator session of app.js: the module-level state (`parsedConstants`,
 * `parsedMasses`, `parsedListVariables`, `prevResult`, `history_list`, the
 * result display), its initialisation `init`, the evaluation step
 * `calculate` and the history bookkeeping `addToHistory`.
 *
 * In the model, the host's expression evaluation (`new Function(...)`) is an
 * oracle that sees only the namespace and the rewritten text, and returns a
 * value or throws; it cannot change the session's tables.
 */
module Calculator {
  import opened Results
  import opened Numbers
  import opened Tables
  import opened Lists
  import opened Context

  // ---------------------------------------------------------------------------
  // Preparing the input text

  /** The characters `String.prototype.trim` removes: white space and line terminators. */
  predicate IsSpace(c: char)
  {
    c == '\t' || c == '\n' || c == '\U{000B}' || c == '\U{000C}' || c == '\r' || c == ' '
    || c == '\U{00A0}' || c == '\U{1680}' || ('\U{2000}' <= c <= '\U{200A}')
    || c == '\U{2028}' || c == '\U{2029}' || c == '\U{202F}' || c == '\U{205F}'
    || c == '\U{3000}' || c == '\U{FEFF}'
  }

  /** The text without its leading white space. */
  function TrimStart(s: string): (r: string)
    ensures |r| <= |s| && r == s[|s| - |r|..]
    ensures r != [] ==> !IsSpace(r[0])
    ensures forall i :: 0 <= i < |s| - |r| ==> IsSpace(s[i])
  {
    if s != [] && IsSpace(s[0]) then TrimStart(s[1..]) else s
  }

  /** The text without its trailing white space. */
  function TrimEnd(s: string): (r: string)
    ensures |r| <= |s| && r == s[..|r|]
    ensures r != [] ==> !IsSpace(r[|r| - 1])
    ensures forall i :: |r| <= i < |s| ==> IsSpace(s[i])
  {
    if s != [] && IsSpace(s[|s| - 1]) then TrimEnd(s[..|s| - 1]) else s
  }

  /** `String.prototype.trim`. */
  function Trim(s: string): (r: string)
    ensures r != [] ==> !IsSpace(r[0]) && !IsSpace(r[|r| - 1])
  {
    TrimEnd(TrimStart(s))
  }

  /** The input is blank, and `calculate` short-circuits, exactly when it is all white space. */
  lemma BlankIffAllSpace(s: string)
    ensures Trim(s) == [] <==> forall i :: 0 <= i < |s| ==> IsSpace(s[i])
  {
    var t := TrimStart(s);
    assert |t| > 0 ==> s[|s| - |t|] == t[0];
  }

  /** `s.replace(/c/g, replacement)` for a single character `c`. */
  function ReplaceAll(s: string, c: char, replacement: string): (r: string)
    ensures c !in replacement ==> c !in r
    ensures forall d :: d in r ==> d in s || d in replacement
  {
    if s == [] then [] else (if s[0] == c then replacement else [s[0]]) + ReplaceAll(s[1..], c, replacement)
  }

  lemma {:induction false} ReplaceAllAppend(a: string, b: string, c: char, replacement: string)
    ensures ReplaceAll(a + b, c, replacement) == ReplaceAll(a, c, replacement) + ReplaceAll(b, c, replacement)
  {
    if a == [] {
      assert a + b == b;
    } else {
      assert (a + b)[0] == a[0] && (a + b)[1..] == a[1..] + b;
      ReplaceAllAppend(a[1..], b, c, replacement);
    }
  }

  /**
   * The text `calculate` hands to the evaluator: every `^` becomes `**`,
   * then every `%` becomes `*0.01`.
   */
  function Rewrite(s: string): (r: string)
    ensures '^' !in r && '%' !in r
  {
    ReplaceAll(ReplaceAll(s, '^', "**"), '%', "*0.01")
  }

  /** What one character of the input becomes. */
  function Expansion(c: char): string
  {
    if c == '^' then "**" else if c == '%' then "*0.01" else [c]
  }

  /** Every character replaced by its expansion, independently of the others. */
  function ExpandEach(s: string): string
  {
    if s == [] then [] else Expansion(s[0]) + ExpandEach(s[1..])
  }

  /**
   * The two passes are one character-by-character rewrite: `^` becomes
   * exponentiation, `%` a multiplication by 0.01, and nothing else changes.
   */
  lemma {:induction false} RewriteExpandsEachCharacter(s: string)
    ensures Rewrite(s) == ExpandEach(s)
  {
    if s != [] {
      var first := if s[0] == '^' then "**" else [s[0]];
      assert ReplaceAll(s, '^', "**") == first + ReplaceAll(s[1..], '^', "**");
      ReplaceAllAppend(first, ReplaceAll(s[1..], '^', "**"), '%', "*0.01");
      assert ReplaceAll("**", '%', "*0.01") == "**" by {
        assert ReplaceAll("*", '%', "*0.01") == "*";
      }
      RewriteExpandsEachCharacter(s[1..]);
    }
  }

  /** An input with neither `^` nor `%` reaches the evaluator as it is (once trimmed). */
  lemma {:induction false} RewriteKeepsPlainText(s: string)
    requires '^' !in s && '%' !in s
    ensures Rewrite(s) == s
  {
    RewriteExpandsEachCharacter(s);
    ExpandEachPlain(s);
  }

  lemma {:induction false} ExpandEachPlain(s: string)
    requires '^' !in s && '%' !in s
    ensures ExpandEach(s) == s
  {
    if s != [] {
      assert s[0] in s;
      assert forall c :: c in s[1..] ==> c in s;
      ExpandEachPlain(s[1..]);
    }
  }

  // ---------------------------------------------------------------------------
  // History

  /** A history entry: the expression as typed and its finite result. */
  type Entry = (string, real)

  /** `findIndex(entry => entry[0] === text)`: the first entry with that text, or -1. */
  function FirstMatch(h: seq<Entry>, text: string): (i: int)
    ensures -1 <= i < |h|
    ensures i >= 0 ==> h[i].0 == text && forall j :: 0 <= j < i ==> h[j].0 != text
    ensures i == -1 ==> forall j :: 0 <= j < |h| ==> h[j].0 != text
  {
    if h == [] then -1
    else if h[0].0 == text then 0
    else
      var k := FirstMatch(h[1..], text);
      if k == -1 then -1 else k + 1
  }

  /** The search `addToHistory` runs. */
  method FindIndex(h: seq<Entry>, text: string) returns (index: int)
    ensures index == FirstMatch(h, text)
  {
    var i := 0;
    while i < |h|
      invariant 0 <= i <= |h|
      invariant forall j :: 0 <= j < i ==> h[j].0 != text
    {
      if h[i].0 == text {
        return i;
      }
      i := i + 1;
    }
    return -1;
  }

  /** No two entries share a text. */
  predicate TextsUnique(h: seq<Entry>)
  {
    forall i, j :: 0 <= i < j < |h| ==> h[i].0 != h[j].0
  }

  /** `addToHistory`: the first entry with the same text is spliced out, the new one pushed. */
  function Recorded(h: seq<Entry>, text: string, result: real): (r: seq<Entry>)
    ensures |r| > 0 && r[|r| - 1] == (text, result)
  {
    var i := FirstMatch(h, text);
    (if i > -1 then h[..i] + h[i + 1..] else h) + [(text, result)]
  }

  /** The entries whose text differs from `text`, in their order. */
  function Without(h: seq<Entry>, text: string): (r: seq<Entry>)
    ensures forall j :: 0 <= j < |r| ==> r[j].0 != text
  {
    if h == [] then [] else (if h[0].0 == text then [] else [h[0]]) + Without(h[1..], text)
  }

  lemma {:induction false} WithoutAppend(a: seq<Entry>, b: seq<Entry>, text: string)
    ensures Without(a + b, text) == Without(a, text) + Without(b, text)
  {
    if a == [] {
      assert a + b == b;
    } else {
      assert (a + b)[0] == a[0] && (a + b)[1..] == a[1..] + b;
      WithoutAppend(a[1..], b, text);
    }
  }

  lemma {:induction false} WithoutAbsent(h: seq<Entry>, text: string)
    requires forall j :: 0 <= j < |h| ==> h[j].0 != text
    ensures Without(h, text) == h
  {
    if h != [] {
      WithoutAbsent(h[1..], text);
    }
  }

  /** The history grows by one entry exactly when the text is new. */
  lemma RecordedLength(h: seq<Entry>, text: string, result: real)
    ensures |Recorded(h, text, result)| == if exists j :: 0 <= j < |h| && h[j].0 == text then |h| else |h| + 1
  {
  }

  /** Recording keeps entry texts pairwise distinct. */
  lemma RecordedUnique(h: seq<Entry>, text: string, result: real)
    ensures TextsUnique(h) ==> TextsUnique(Recorded(h, text, result))
  {
    if !TextsUnique(h) {
      return;
    }
    var i := FirstMatch(h, text);
    var kept := if i > -1 then h[..i] + h[i + 1..] else h;
    assert forall j :: 0 <= j < |kept| ==> kept[j].0 != text by {
      if i > -1 {
        forall j | 0 <= j < |kept| ensures kept[j].0 != text {
          if j >= i { assert kept[j] == h[j + 1]; }
        }
      }
    }
    assert TextsUnique(kept) by {
      if i > -1 {
        forall a, b | 0 <= a < b < |kept| ensures kept[a].0 != kept[b].0 {
          var a' := if a < i then a else a + 1;
          var b' := if b < i then b else b + 1;
          assert kept[a] == h[a'] && kept[b] == h[b'];
        }
      }
    }
  }

  /**
   * With distinct texts, recording moves the entry for `text` to the end with
   * its new result, and every other entry keeps its relative order.
   */
  lemma RecordedKeepsOrder(h: seq<Entry>, text: string, result: real)
    requires TextsUnique(h)
    ensures Recorded(h, text, result) == Without(h, text) + [(text, result)]
  {
    var i := FirstMatch(h, text);
    if i > -1 {
      var before, after := h[..i], h[i + 1..];
      assert h == before + ([h[i]] + after);
      forall j | 0 <= j < |after| ensures after[j].0 != text {
        assert after[j] == h[i + 1 + j];
      }
      WithoutAbsent(before, text);
      WithoutAbsent(after, text);
      assert Without([h[i]] + after, text) == Without(after, text);
      WithoutAppend(before, [h[i]] + after, text);
    } else {
      WithoutAbsent(h, text);
    }
  }

  // ---------------------------------------------------------------------------
  // The session

  /** What the result element shows. */
  datatype Display =
    | Blank             // before `init` ran
    | Zero              // '0': a blank input
    | Shown(value: real) // a finite result (formatted to ten significant digits)
    | ErrorText         // 'Error'
    | InitErrorText     // 'INIT ERROR'

  /** A value the evaluated expression can produce. */
  datatype JsValue = NumberValue(n: Num) | NonNumber

  /** What running the evaluated expression does: return a value or throw. */
  datatype Outcome = Returned(v: JsValue) | Threw

  /** The host evaluator: the namespace and the rewritten text in, an outcome out. */
  type Evaluator = (map<string, Value>, string) -> Outcome

  /**
   * The result check of `calculate`: only a number that is neither NaN nor
   * an infinity is accepted; anything else, or a throw, is an error.
   */
  function FiniteResult(o: Outcome): (r: Option<real>)
    ensures r.Some? <==> o.Returned? && o.v.NumberValue? && o.v.n.Fin?
    ensures r.Some? ==> o == Returned(NumberValue(Fin(r.value)))
  {
    match o
    case Returned(NumberValue(Fin(x))) => Some(x)
    case _ => None
  }

  /** The part of the session `calculate` changes. */
  datatype State = State(history: seq<Entry>, prevResult: Option<real>, display: Display, errorMarked: bool)

  /**
   * One `calculate` on `expression`, with the namespace it builds and the
   * host evaluator. A blank input only shows 0. Only a finite result touches
   * the history and the previous result; every failure shows 'Error' and
   * marks the input.
   */
  function Step(st: State, expression: string, context: map<string, Value>, evaluate: Evaluator): (next: State)
    ensures TextsUnique(st.history) ==> TextsUnique(next.history)
    ensures Trim(expression) == [] ==> next == st.(display := Zero)
    ensures next.history != st.history || next.prevResult != st.prevResult ==>
              Trim(expression) != [] && FiniteResult(evaluate(context, Rewrite(Trim(expression)))).Some?
    ensures next.display.Shown? ==>
              Trim(expression) != [] &&
              FiniteResult(evaluate(context, Rewrite(Trim(expression)))) == Some(next.display.value) &&
              next.prevResult == Some(next.display.value) && !next.errorMarked &&
              next.history == Recorded(st.history, expression, next.display.value)
    ensures Trim(expression) != [] && FiniteResult(evaluate(context, Rewrite(Trim(expression)))).None? ==>
              next == st.(display := ErrorText, errorMarked := true)
    ensures Trim(expression) != [] && FiniteResult(evaluate(context, Rewrite(Trim(expression)))).Some? ==>
              var x := FiniteResult(evaluate(context, Rewrite(Trim(expression)))).value;
              next == State(Recorded(st.history, expression, x), Some(x), Shown(x), false)
  {
    var trimmed := Trim(expression);
    if trimmed == [] then st.(display := Zero)
    else
      match FiniteResult(evaluate(context, Rewrite(trimmed)))
      case Some(x) =>
        RecordedUnique(st.history, expression, x);
        State(Recorded(st.history, expression, x), Some(x), Shown(x), false)
      case None => st.(display := ErrorText, errorMarked := true)
  }

  class Session {
    var constants: map<string, Num>
    var massCategories: Entries<Entries<Num>>
    var masses: map<string, Num>
    var lists: map<string, seq<Num>>
    var custom: map<string, Value>
    var history: seq<Entry>
    var prevResult: Option<real>
    var display: Display
    var errorMarked: bool   // the red border on the input

    ghost predicate Valid()
      reads this
    {
      TextsUnique(history)
    }

    /**
     * `init`: parse the constants (derived ones shadowing raw ones) and the
     * masses, flatten the masses, resolve the lists, then evaluate the empty
     * input. A list that does not resolve leaves 'INIT ERROR' on display and
     * the list table empty; the tables parsed before it stay set.
     */
    constructor Init(rawConstants: map<string, string>, rawDerived: map<string, string>,
                     rawMasses: Entries<Entries<string>>, listVars: Entries<ListSpec>,
                     customFunctions: map<string, Value>, parse: string -> Num)
      ensures Valid()
      ensures constants == ParseConstants(rawConstants + rawDerived, parse)
      ensures massCategories == ParsedCategories(rawMasses, parse)
      ensures masses == Merged(massCategories)
      ensures custom == customFunctions
      ensures history == [] && prevResult == None && !errorMarked
      ensures ResolveLists(listVars, constants, masses).Ok? ==>
                lists == ResolveLists(listVars, constants, masses).value && display == Zero
      ensures ResolveLists(listVars, constants, masses).Err? ==>
                lists == map[] && display == InitErrorText
    {
      var parsedConstants := ParseConstants(rawConstants + rawDerived, parse);
      var categories, _ := ParseMasses(rawMasses, parse);
      var flat := MergeDict(categories);
      var resolved := ParseLists(listVars, parsedConstants, flat);
      constants, massCategories, masses, custom := parsedConstants, categories, flat, customFunctions;
      history, prevResult, errorMarked := [], None, false;
      if resolved.Ok? {
        lists, display := resolved.value, Zero;
      } else {
        lists, display := map[], InitErrorText;
      }
    }

    /** `addToHistory`, without the history buttons it also creates and removes. */
    method AddToHistory(text: string, result: real)
      requires Valid()
      modifies this`history
      ensures Valid()
      ensures history == Recorded(old(history), text, result)
    {
      var index := FindIndex(history, text);
      RecordedUnique(history, text, result);
      if index > -1 {
        history := history[..index] + history[index + 1..];
      }
      history := history + [(text, result)];
    }

    /** The part of the session `calculate` changes. */
    function Snapshot(): State
      reads this
    {
      State(history, prevResult, display, errorMarked)
    }

    /**
     * `calculate` on the input's current text, evaluated in the namespace
     * built from the session's tables.
     */
    method Calculate(expression: string, evaluate: Evaluator)
      requires Valid()
      modifies this`history, this`prevResult, this`display, this`errorMarked
      ensures Valid()
      ensures Snapshot() == old(Step(Snapshot(), expression, ExecutionContext(constants, lists, custom), evaluate))
    {
      ghost var before := Snapshot();
      var trimmed := Trim(expression);
      if trimmed == [] {
        display := Zero;
        assert Snapshot() == before.(display := Zero);
        return;
      }
      var context := ExecutionContext(constants, lists, custom);
      var prepared := Rewrite(trimmed);
      var outcome := evaluate(context, prepared);
      var checked := FiniteResult(outcome);
      if checked.Some? {
        var result := checked.value;
        prevResult := Some(result);
        AddToHistory(expression, result);
        display := Shown(result);
        errorMarked := false;
        assert Snapshot() == State(Recorded(before.history, expression, result), Some(result), Shown(result), false);
      } else {
        display := ErrorText;
        errorMarked := true;
        assert Snapshot() == before.(display := ErrorText, errorMarked := true);
      }
    }
  }
}

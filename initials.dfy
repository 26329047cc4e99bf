/**
 * The avatar initials of a display name, shared by the profile page (fallback
 * "U") and the header (fallback "?").
 *
 * The code takes the first character of the first and of the last piece of
 * `name.split(' ')`. A piece is empty when the name starts or ends with a space,
 * and the first character of an empty string is `undefined`; JavaScript then
 * either concatenates the text "undefined" or adds two `undefined`s to `NaN`,
 * whose `toUpperCase` throws. `InitialsAsWritten` models exactly that;
 * `Initials` is the evidently intended version over the non-empty words, which
 * the pages use in this model.
 */
module AvatarInitials {
  import opened Text
  import opened Types

  // ---------------------------------------------------------------------------
  // The JavaScript values involved

  /** A value the expression can produce: a string, `undefined`, or the number `NaN`. */
  datatype JsValue = Str(s: string) | Undefined | NaN

  /** The outcome of rendering the initials: a string, or a `TypeError`. */
  datatype Rendered = Shown(text: string) | Thrown

  /** `s[0]`: the first character as a string, `undefined` for the empty string. */
  function FirstChar(s: string): (v: JsValue)
    ensures v == Undefined <==> s == ""
    ensures v.Str? ==> v.s == [s[0]]
  {
    if |s| == 0 then Undefined else Str([s[0]])
  }

  /** `String(v)`. */
  function ToJsString(v: JsValue): string
  {
    match v
    case Str(s) => s
    case Undefined => "undefined"
    case NaN => "NaN"
  }

  /** `a + b`: concatenation when either side is a string, numeric addition (here always `NaN`) otherwise. */
  function JsPlus(a: JsValue, b: JsValue): (r: JsValue)
    ensures r.Str? <==> a.Str? || b.Str?
    ensures r.Str? ==> r.s == ToJsString(a) + ToJsString(b)
  {
    if a.Str? || b.Str? then Str(ToJsString(a) + ToJsString(b)) else NaN
  }

  /** `v.toUpperCase()`: only strings have the method; on anything else it throws. */
  function ToUpperCase(v: JsValue): (r: Rendered)
    ensures r.Shown? <==> v.Str?
    ensures r.Shown? ==> r.text == Upper(v.s)
  {
    if v.Str? then Shown(Upper(v.s)) else Thrown
  }

  /** `getInitials` as the code writes it. */
  function InitialsAsWritten(displayName: Option<string>, fallback: string): Rendered
  {
    if displayName.None? || displayName.value == "" then Shown(fallback)
    else
      var names := Split(displayName.value, ' ');
      if |names| == 1 then ToUpperCase(FirstChar(names[0]))
      else ToUpperCase(JsPlus(FirstChar(names[0]), FirstChar(names[|names| - 1])))
  }

  /** A name with a trailing space gets "UNDEFINED" glued to its initial. */
  lemma TrailingSpaceAsWritten()
    ensures InitialsAsWritten(Some("Ada "), "U") == Shown("AUNDEFINED")
  {
    AdaPieces();
    var joined := JsPlus(FirstChar("Ada"), FirstChar(""));
    assert joined == Str("Aundefined");
    UpperAundefined();
  }

  lemma AdaPieces()
    ensures Split("Ada ", ' ') == ["Ada", ""]
  {
    SplitTrailingSeparator("Ada", ' ');
    SplitSingle("Ada", ' ');
    assert "Ada " == "Ada" + [' '];
  }

  lemma UpperAundefined()
    ensures Upper("Aundefined") == "AUNDEFINED"
  {
  }

  /** A name made of one space makes the page throw. */
  lemma OnlySpaceAsWritten()
    ensures InitialsAsWritten(Some(" "), "?") == Thrown
  {
    SplitTrailingSeparator("", ' ');
    assert " " == "" + [' '];
  }

  // ---------------------------------------------------------------------------
  // The intended initials

  /** The non-empty pieces, in order. */
  function Words(pieces: seq<string>): (w: seq<string>)
    ensures forall i :: 0 <= i < |w| ==> w[i] != ""
    ensures forall x :: x in w <==> x in pieces && x != ""
  {
    if |pieces| == 0 then []
    else
      var front := Words(pieces[..|pieces| - 1]);
      var last := pieces[|pieces| - 1];
      assert pieces == pieces[..|pieces| - 1] + [last];
      if last == "" then front else front + [last]
  }

  lemma {:induction false} WordsAppend(a: seq<string>, b: seq<string>)
    ensures Words(a + b) == Words(a) + Words(b)
    decreases |b|
  {
    if |b| == 0 {
      assert a + b == a;
    } else {
      WordsAppend(a, b[..|b| - 1]);
      assert (a + b)[..|a + b| - 1] == a + b[..|b| - 1];
    }
  }

  /** The upper-cased first letters of the first and last words of the name, or `fallback` when it has no word. */
  function Initials(displayName: Option<string>, fallback: string): (r: string)
    ensures displayName.None? ==> r == fallback
    ensures displayName.Some? && |Words(Split(displayName.value, ' '))| == 0 ==> r == fallback
    ensures displayName.Some? && |Words(Split(displayName.value, ' '))| > 0 ==>
      var words := Words(Split(displayName.value, ' '));
      && |r| == (if |words| == 1 then 1 else 2)
      && r[0] == UpperChar(words[0][0])
      && r[|r| - 1] == UpperChar(words[|words| - 1][0])
  {
    var words := if displayName.Some? then Words(Split(displayName.value, ' ')) else [];
    if |words| == 0 then fallback
    else if |words| == 1 then Upper([words[0][0]])
    else Upper([words[0][0], words[|words| - 1][0]])
  }

  /** The code is right when the name neither starts nor ends with a space. */
  lemma AsWrittenAgrees(name: string, fallback: string)
    requires name != "" && name[0] != ' ' && name[|name| - 1] != ' '
    ensures InitialsAsWritten(Some(name), fallback) == Shown(Initials(Some(name), fallback))
  {
    var names := Split(name, ' ');
    SplitFirst(name, ' ');
    SplitLastEmpty(name, ' ');
    var words := Words(names);
    if |names| == 1 {
      assert names == [names[0]];
      assert words == [names[0]];
    } else {
      var mid := names[1..|names| - 1];
      assert names == [names[0]] + mid + [names[|names| - 1]];
      WordsAppend([names[0]] + mid, [names[|names| - 1]]);
      WordsAppend([names[0]], mid);
      assert Words([names[0]]) == [names[0]];
      assert words == [names[0]] + Words(mid) + [names[|names| - 1]];
    }
  }

  /** A space in front of the name does not change its initials. */
  lemma LeadingSpaceIgnored(name: string, fallback: string)
    ensures Initials(Some(" " + name), fallback) == Initials(Some(name), fallback)
  {
    assert (" " + name)[1..] == name;
    assert Split(" " + name, ' ') == [""] + Split(name, ' ');
    WordsAppend([""], Split(name, ' '));
  }

  /** A space after the name does not change its initials. */
  lemma TrailingSpaceIgnored(name: string, fallback: string)
    ensures Initials(Some(name + " "), fallback) == Initials(Some(name), fallback)
  {
    SplitTrailingSeparator(name, ' ');
    assert name + " " == name + [' '];
    WordsAppend(Split(name, ' '), [""]);
  }

  lemma AdaWords()
    ensures Words(Split("Ada", ' ')) == ["Ada"]
  {
    assert ' ' !in "Ada";
    SplitSingle("Ada", ' ');
    assert ["Ada"] == [] + ["Ada"];
  }

  /** The intended result for the name that trips the code. */
  lemma TrailingSpaceIntended()
    ensures Initials(Some("Ada "), "U") == "A"
  {
    TrailingSpaceIgnored("Ada", "U");
    assert "Ada " == "Ada" + " ";
    AdaWords();
    assert Upper("A") == "A";
  }
}

/** Redaction of secret values in captured output. */
module Redaction {
  import opened Strings

  const MARKER := "[REDACTED]"

  datatype EnvValue = Text(text: string) | Secret(value: string)

  /** Python's `text.replace(value, marker)`: leftmost, non-overlapping occurrences. */
  function Replace(text: string, value: string, marker: string): string
    requires value != ""
  {
    if text == "" then ""
    else if value <= text then marker + Replace(text[|value|..], value, marker)
    else [text[0]] + Replace(text[1..], value, marker)
  }

  /** Replace every value in turn, each in the output of the one before. */
  function ReplaceAll(text: string, values: seq<string>, marker: string): string
    requires "" !in values
    decreases values
  {
    if values == [] then text
    else
      assert values[0] in values;
      ReplaceAll(Replace(text, values[0], marker), values[1..], marker)
  }

  /** The non-empty values that are wrapped as secrets, in mapping order. */
  function SecretValues(env: seq<EnvValue>): (values: seq<string>)
    ensures "" !in values
    ensures forall v :: v in values <==> v != "" && Secret(v) in env
  {
    if env == [] then []
    else
      assert env == [env[0]] + env[1..];
      match env[0]
      case Text(_) => SecretValues(env[1..])
      case Secret(v) => (if v == "" then [] else [v]) + SecretValues(env[1..])
  }

  function InsertByLength(value: string, sorted: seq<string>): seq<string> {
    if sorted != [] && |sorted[0]| >= |value| then [sorted[0]] + InsertByLength(value, sorted[1..])
    else [value] + sorted
  }

  lemma {:induction false} InsertKeepsAll(value: string, sorted: seq<string>)
    ensures multiset(InsertByLength(value, sorted)) == multiset(sorted) + multiset{value}
  {
    if sorted != [] && |sorted[0]| >= |value| {
      InsertKeepsAll(value, sorted[1..]);
      assert sorted == [sorted[0]] + sorted[1..];
    }
  }

  /** Python's stable sort by length, longest first. */
  function LongestFirst(values: seq<string>): (r: seq<string>)
    ensures multiset(r) == multiset(values)
    ensures forall v :: v in r <==> v in values
  {
    if values == [] then []
    else
      var last := |values| - 1;
      assert values == values[..last] + [values[last]];
      var r := InsertByLength(values[last], LongestFirst(values[..last]));
      InsertKeepsAll(values[last], LongestFirst(values[..last]));
      assert forall v :: v in r <==> v in multiset(r);
      assert forall v :: v in values <==> v in multiset(values);
      r
  }

  /** The output of `redact`. */
  function Redacted(text: string, env: seq<EnvValue>): string {
    ReplaceAll(text, LongestFirst(SecretValues(env)), MARKER)
  }

  /** `redact`: one replacement pass per secret value, reassigning the text. */
  method Redact(text: string, env: seq<EnvValue>) returns (redacted: string)
    ensures redacted == Redacted(text, env)
  {
    redacted := text;
    var values := LongestFirst(SecretValues(env));
    for i := 0 to |values|
      invariant ReplaceAll(redacted, values[i..], MARKER) == Redacted(text, env)
    {
      assert values[i] in values;
      redacted := Replace(redacted, values[i], MARKER);
      assert values[i..][1..] == values[i + 1..];
    }
  }

  ghost predicate Descending(values: seq<string>) {
    forall i, j :: 0 <= i <= j < |values| ==> |values[j]| <= |values[i]|
  }

  lemma {:induction false} InsertDescending(value: string, sorted: seq<string>)
    requires Descending(sorted)
    ensures Descending(InsertByLength(value, sorted))
  {
    if sorted != [] && |sorted[0]| >= |value| {
      InsertDescending(value, sorted[1..]);
      InsertKeepsAll(value, sorted[1..]);
      var rest := InsertByLength(value, sorted[1..]);
      forall j | 0 <= j < |rest| ensures |rest[j]| <= |sorted[0]| {
        assert rest[j] in multiset(rest);
        assert rest[j] == value || rest[j] in multiset(sorted[1..]);
        if rest[j] != value {
          assert rest[j] in sorted[1..];
        }
      }
    }
  }

  lemma {:induction false} LongestFirstDescending(values: seq<string>)
    ensures Descending(LongestFirst(values))
  {
    if values != [] {
      var last := |values| - 1;
      LongestFirstDescending(values[..last]);
      InsertDescending(values[last], LongestFirst(values[..last]));
    }
  }

  function OfLength(values: seq<string>, n: nat): seq<string> {
    if values == [] then []
    else (if |values[0]| == n then [values[0]] else []) + OfLength(values[1..], n)
  }

  lemma {:induction false} OfLengthMore(values: seq<string>, last: string, n: nat)
    ensures OfLength(values + [last], n) == OfLength(values, n) + if |last| == n then [last] else []
  {
    if values == [] {
      assert [] + [last] == [last] && [last][1..] == [];
    } else {
      assert (values + [last])[1..] == values[1..] + [last];
      OfLengthMore(values[1..], last, n);
    }
  }

  lemma OfLengthFirst(first: string, values: seq<string>, n: nat)
    ensures OfLength([first] + values, n) == (if |first| == n then [first] else []) + OfLength(values, n)
  {
    assert ([first] + values)[1..] == values;
  }

  lemma {:induction false} NoneOfLength(values: seq<string>, n: nat)
    requires forall i :: 0 <= i < |values| ==> |values[i]| != n
    ensures OfLength(values, n) == []
  {
    if values != [] {
      NoneOfLength(values[1..], n);
    }
  }

  lemma {:induction false} InsertedLast(value: string, sorted: seq<string>, n: nat)
    requires Descending(sorted)
    ensures OfLength(InsertByLength(value, sorted), n) == OfLength(sorted, n) + if |value| == n then [value] else []
  {
    if sorted != [] && |sorted[0]| >= |value| {
      InsertedLast(value, sorted[1..], n);
      hide OfLength, InsertByLength;
      OfLengthFirst(sorted[0], InsertByLength(value, sorted[1..]), n);
      OfLengthFirst(sorted[0], sorted[1..], n);
      assert [sorted[0]] + sorted[1..] == sorted;
    } else {
      if |value| == n {
        NoneOfLength(sorted, n);
      }
      hide OfLength, InsertByLength;
      OfLengthFirst(value, sorted, n);
    }
  }

  lemma LongestFirstUnfolds(values: seq<string>, last: string)
    ensures LongestFirst(values + [last]) == InsertByLength(last, LongestFirst(values))
  {
    hide InsertByLength;
    assert (values + [last])[..|values|] == values;
  }

  /** The sort is stable: values of the same length keep their order. */
  lemma {:induction false} LongestFirstIsStable(values: seq<string>, n: nat)
    ensures OfLength(LongestFirst(values), n) == OfLength(values, n)
  {
    if values == [] {
      assert LongestFirst([]) == [];
    } else {
      hide *;
      var rest, last := values[..|values| - 1], values[|values| - 1];
      assert values == rest + [last];
      LongestFirstIsStable(rest, n);
      LongestFirstDescending(rest);
      LongestFirstUnfolds(rest, last);
      InsertedLast(last, LongestFirst(rest), n);
      OfLengthMore(rest, last, n);
    }
  }

  // ---------------------------------------------------------------- what redaction removes

  /** The value and the marker can neither contain nor overlap one another. */
  ghost predicate Clear(value: string, marker: string) {
    && (forall i :: 0 <= i < |marker| ==> !(value <= marker[i..]) && !(marker[i..] <= value))
    && (forall j :: 0 <= j < |value| ==> !(value[j..] <= marker) && !(marker <= value[j..]))
  }

  /** Of two texts that are no prefix of one another, neither begins an extension of the other. */
  lemma Incomparable(left: string, right: string, rest: string)
    requires !(left <= right) && !(right <= left)
    ensures !(left <= right + rest)
  {
    if |left| <= |right| {
      assert (right + rest)[..|left|] == right[..|left|];
    } else {
      assert (right + rest)[..|right|] == right;
    }
  }

  /** A clear value does not begin inside the marker, nor does a tail of it begin with the marker. */
  lemma ClearOfMarker(wanted: string, marker: string, rest: string)
    requires Clear(wanted, marker)
    ensures forall i :: 0 <= i < |marker| ==> !OccursAt(wanted, marker + rest, i)
    ensures forall j :: 0 <= j < |wanted| ==> !(wanted[j..] <= marker + rest)
  {
    forall i | 0 <= i < |marker| ensures !OccursAt(wanted, marker + rest, i) {
      assert (marker + rest)[i..] == marker[i..] + rest;
      Incomparable(wanted, marker[i..], rest);
    }
    forall j | 0 <= j < |wanted| ensures !(wanted[j..] <= marker + rest) {
      Incomparable(wanted[j..], marker, rest);
    }
  }

  /** A tail of the value at the front of the output was already at the front of the text. */
  lemma {:induction false} TailAtFront(text: string, value: string, marker: string, wanted: string, j: nat)
    requires value != "" && Clear(wanted, marker) && j <= |wanted|
    requires wanted[j..] <= Replace(text, value, marker)
    ensures wanted[j..] <= text
  {
    hide Clear;
    var tail := wanted[j..];
    if j == |wanted| || text == "" {
    } else if value <= text {
      ClearOfMarker(wanted, marker, Replace(text[|value|..], value, marker));
    } else {
      var rest := Replace(text[1..], value, marker);
      assert wanted[j + 1..] == tail[1..];
      assert Replace(text, value, marker)[1..] == rest;
      TailAtFront(text[1..], value, marker, wanted, j + 1);
      assert text == [text[0]] + text[1..];
    }
  }

  /** A clear value that occurs after a marker was put in front occurs behind the marker. */
  lemma BehindMarker(wanted: string, marker: string, rest: string, i: nat)
    requires wanted != "" && Clear(wanted, marker)
    requires i <= |marker + rest| && OccursAt(wanted, marker + rest, i)
    ensures |marker| <= i && OccursAt(wanted, rest, i - |marker|)
  {
    hide Clear;
    ClearOfMarker(wanted, marker, rest);
    assert (marker + rest)[i..] == rest[i - |marker|..];
  }

  /** Wherever a clear value occurs in the output, it occurred in the text, and it is another one. */
  lemma {:induction false} OutputOccurrence(text: string, value: string, marker: string, wanted: string, i: nat)
    requires value != "" && wanted != "" && Clear(wanted, marker)
    requires i <= |Replace(text, value, marker)| && OccursAt(wanted, Replace(text, value, marker), i)
    ensures wanted != value && Occurs(wanted, text)
  {
    hide Clear;
    if text == "" {
    } else if value <= text {
      BehindMarker(wanted, marker, Replace(text[|value|..], value, marker), i);
      OutputOccurrence(text[|value|..], value, marker, wanted, i - |marker|);
      OccursInTail(wanted, text, |value|);
    } else if i == 0 {
      var output := Replace(text, value, marker);
      assert wanted[0..] == wanted && output[0..] == output && text[0..] == text;
      TailAtFront(text, value, marker, wanted, 0);
      assert OccursAt(wanted, text, 0);
    } else {
      var rest := Replace(text[1..], value, marker);
      assert ([text[0]] + rest)[i..] == rest[i - 1..];
      OutputOccurrence(text[1..], value, marker, wanted, i - 1);
      OccursInTail(wanted, text, 1);
    }
  }

  lemma OccursInTail(needle: string, text: string, k: nat)
    requires k <= |text| && Occurs(needle, text[k..])
    ensures Occurs(needle, text)
  {
    var i :| 0 <= i <= |text[k..]| && OccursAt(needle, text[k..], i);
    assert text[k..][i..] == text[k + i..];
    assert OccursAt(needle, text, k + i);
  }

  lemma ReplaceRemoves(text: string, value: string, marker: string)
    requires value != "" && Clear(value, marker)
    ensures !Occurs(value, Replace(text, value, marker))
  {
    var output := Replace(text, value, marker);
    if Occurs(value, output) {
      var i :| 0 <= i <= |output| && OccursAt(value, output, i);
      OutputOccurrence(text, value, marker, value, i);
    }
  }

  lemma ReplaceAddsNone(text: string, value: string, marker: string, wanted: string)
    requires value != "" && wanted != "" && Clear(wanted, marker) && !Occurs(wanted, text)
    ensures !Occurs(wanted, Replace(text, value, marker))
  {
    var output := Replace(text, value, marker);
    if Occurs(wanted, output) {
      var i :| 0 <= i <= |output| && OccursAt(wanted, output, i);
      OutputOccurrence(text, value, marker, wanted, i);
    }
  }

  lemma {:induction false} ReplaceAllRemoves(text: string, values: seq<string>, marker: string, wanted: string)
    requires "" !in values && wanted != "" && Clear(wanted, marker)
    requires wanted in values || !Occurs(wanted, text)
    ensures !Occurs(wanted, ReplaceAll(text, values, marker))
    decreases values
  {
    if values != [] {
      assert values[0] in values;
      if wanted == values[0] {
        ReplaceRemoves(text, wanted, marker);
      } else if !Occurs(wanted, text) {
        ReplaceAddsNone(text, values[0], marker, wanted);
      }
      ReplaceAllRemoves(Replace(text, values[0], marker), values[1..], marker, wanted);
    }
  }

  /** A secret clear of the marker never survives, whatever else is secret and in any overlap. */
  lemma SecretNeverSurvives(text: string, env: seq<EnvValue>, value: string)
    requires value != "" && Secret(value) in env && Clear(value, MARKER)
    ensures !Occurs(value, Redacted(text, env))
  {
    ReplaceAllRemoves(text, LongestFirst(SecretValues(env)), MARKER, value);
  }

  lemma {:induction false} AbsentUnchanged(text: string, value: string, marker: string)
    requires value != "" && !Occurs(value, text)
    ensures Replace(text, value, marker) == text
  {
    if text != "" {
      assert text[0..] == text;
      assert !OccursAt(value, text, 0);
      if Occurs(value, text[1..]) {
        OccursInTail(value, text, 1);
      }
      AbsentUnchanged(text[1..], value, marker);
    }
  }

  lemma {:induction false} AllAbsentUnchanged(text: string, values: seq<string>, marker: string)
    requires "" !in values && forall v :: v in values ==> !Occurs(v, text)
    ensures ReplaceAll(text, values, marker) == text
  {
    if values != [] {
      assert values[0] in values;
      AbsentUnchanged(text, values[0], marker);
      AllAbsentUnchanged(text, values[1..], marker);
    }
  }

  /** With every secret clear of the marker, no secret survives and redacting again is harmless. */
  lemma RedactionTheorem(text: string, env: seq<EnvValue>)
    requires forall v :: v != "" && Secret(v) in env ==> Clear(v, MARKER)
    ensures forall v :: v != "" && Secret(v) in env ==> !Occurs(v, Redacted(text, env))
    ensures Redacted(Redacted(text, env), env) == Redacted(text, env)
  {
    forall v | v != "" && Secret(v) in env ensures !Occurs(v, Redacted(text, env)) {
      SecretNeverSurvives(text, env, v);
    }
    AllAbsentUnchanged(Redacted(text, env), LongestFirst(SecretValues(env)), MARKER);
  }

  /** The checkable special case: no bracket in the secret, and not a piece of `REDACTED`. */
  lemma BracketFreeIsClear(value: string)
    requires value != "" && '[' !in value && ']' !in value && !Occurs(value, "REDACTED")
    ensures Clear(value, MARKER)
  {
    var inner := "REDACTED";
    assert MARKER == "[" + inner + "]";
    assert MARKER[0] == '[' && MARKER[|MARKER| - 1] == ']';
    forall i | 0 <= i < |MARKER| ensures !(value <= MARKER[i..]) && !(MARKER[i..] <= value) {
      var tail := MARKER[i..];
      assert tail[0] == MARKER[i] && tail[|tail| - 1] == ']';
      if 0 < i {
        assert inner[i - 1..] == tail[..|tail| - 1];
        assert !OccursAt(value, inner, i - 1);
      }
    }
    forall j | 0 <= j < |value| ensures !(value[j..] <= MARKER) && !(MARKER <= value[j..]) {
      assert value[j] != '[';
    }
  }

  /** Redacting exactly a secret leaves exactly the marker: longest first, so that no shorter
    * secret inside it is replaced before it and leaves its remainder behind. */
  lemma WholeSecretBecomesMarker(env: seq<EnvValue>, value: string)
    requires value != "" && Secret(value) in env
    requires forall v :: v != "" && Secret(v) in env ==> Clear(v, MARKER)
    ensures Redacted(value, env) == MARKER
  {
    var values := LongestFirst(SecretValues(env));
    LongestFirstDescending(SecretValues(env));
    LongestReplacedWhole(value, values);
  }

  lemma {:induction false} LongestReplacedWhole(value: string, values: seq<string>)
    requires "" !in values && value in values && Descending(values)
    requires forall v :: v in values ==> Clear(v, MARKER)
    ensures ReplaceAll(value, values, MARKER) == MARKER
  {
    var first := values[0];
    assert first in values;
    if first == value {
      assert value[|value|..] == "";
      assert Replace(value, value, MARKER) == MARKER + "" == MARKER;
      forall v | v in values[1..] ensures !Occurs(v, MARKER) {
        assert Clear(v, MARKER);
        assert forall i :: 0 <= i <= |MARKER| ==> i < |MARKER| || MARKER[i..] == "";
      }
      AllAbsentUnchanged(MARKER, values[1..], MARKER);
    } else {
      assert |first| >= |value| by {
        var k :| 0 <= k < |values| && values[k] == value;
        assert |values[k]| <= |values[0]|;
      }
      assert value[0..] == value;
      assert !Occurs(first, value);
      AbsentUnchanged(value, first, MARKER);
      LongestReplacedWhole(value, values[1..]);
    }
  }

  // ---------------------------------------------------------------- when redaction cannot work

  /** In any company of other secrets and on any text: the value is always removed. */
  ghost predicate AlwaysRemoved(value: string) {
    forall text: string, env: seq<EnvValue> | Secret(value) in env :: !Occurs(value, Redacted(text, env))
  }

  /** Being clear of the marker is exactly what a secret needs to be removed from every text. */
  lemma RemovedExactlyWhenClear(value: string, other: char)
    requires value != "" && other !in value
    ensures AlwaysRemoved(value) <==> Clear(value, MARKER)
  {
    if Clear(value, MARKER) {
      forall text: string, env: seq<EnvValue> | Secret(value) in env ensures !Occurs(value, Redacted(text, env)) {
        SecretNeverSurvives(text, env, value);
      }
    } else {
      var text, env := Survivor(value, other);
      assert !AlwaysRemoved(value);
    }
  }

  /** A text in which a value that touches the marker is still there after redaction. */
  lemma Survivor(value: string, other: char) returns (text: string, env: seq<EnvValue>)
    requires value != "" && other !in value && !Clear(value, MARKER)
    ensures Secret(value) in env && Occurs(value, Redacted(text, env))
  {
    if exists i :: 0 <= i < |MARKER| && value <= MARKER[i..] {
      var i :| 0 <= i < |MARKER| && value <= MARKER[i..];
      text, env := value, [Secret(value)];
      RedactOne(value);
      assert OccursAt(value, MARKER, i);
    } else {
      var left, right := Surround(value, MARKER);
      text, env := left + [other] + right, [Secret(value), Secret([other])];
      RedactTwo(value, other, left, right);
    }
  }

  /** Two parts of a value that give it back when the marker stands between them. */
  lemma Surround(value: string, marker: string) returns (left: string, right: string)
    requires value != "" && marker != "" && !Clear(value, marker)
    requires forall i :: 0 <= i < |marker| ==> !(value <= marker[i..])
    ensures |value| > 1 && |left| < |value| && |right| < |value|
    ensures forall c :: c !in value ==> c !in left && c !in right
    ensures Occurs(value, left + marker + right)
  {
    assert marker[0..] == marker;
    if exists i :: 0 <= i < |marker| && marker[i..] <= value {
      var i :| 0 <= i < |marker| && marker[i..] <= value;
      assert !(value <= marker[i..]);
      left, right := "", value[|marker| - i..];
      MarkerTailFirst(value, marker, i);
    } else {
      var j :| 0 <= j < |value| && (value[j..] <= marker || marker <= value[j..]);
      assert !(value <= marker[0..]);
      left := value[..j];
      right := if marker <= value[j..] then value[j + |marker|..] else "";
      MarkerLater(value, marker, j);
    }
  }

  lemma MarkerTailFirst(value: string, marker: string, i: nat)
    requires i < |marker| && marker[i..] <= value
    ensures Occurs(value, "" + marker + value[|marker| - i..])
  {
    var right := value[|marker| - i..];
    assert ("" + marker + right)[i..] == marker[i..] + right == value;
    assert OccursAt(value, "" + marker + right, i);
  }

  lemma MarkerLater(value: string, marker: string, j: nat)
    requires j < |value| && (value[j..] <= marker || marker <= value[j..])
    ensures Occurs(value, value[..j] + marker + if marker <= value[j..] then value[j + |marker|..] else "")
  {
    var right := if marker <= value[j..] then value[j + |marker|..] else "";
    var whole := value[..j] + marker + right;
    assert whole[0..] == whole;
    if marker <= value[j..] {
      assert value[j..] == marker + right;
      assert value == value[..j] + value[j..] == whole;
    } else {
      assert marker == value[j..] + marker[|value| - j..];
      assert value == whole[..|value|];
    }
    assert OccursAt(value, whole, 0);
  }

  lemma SingleSorted(value: string)
    ensures LongestFirst([value]) == [value]
  {
    assert [value][..0] == [];
    assert LongestFirst([]) == [];
  }

  lemma RedactOne(value: string)
    requires value != ""
    ensures Redacted(value, [Secret(value)]) == MARKER
  {
    var env := [Secret(value)];
    assert env[1..] == [];
    assert SecretValues(env) == [value] + SecretValues([]) == [value];
    SingleSorted(value);
    assert value[|value|..] == "";
    assert Replace(value, value, MARKER) == MARKER + "" == MARKER;
    assert ReplaceAll(value, [value], MARKER) == MARKER;
  }

  /** Replacing a character that occurs once. */
  lemma {:induction false} ReplaceSingle(left: string, other: char, right: string, marker: string)
    requires other !in left && other !in right
    ensures Replace(left + [other] + right, [other], marker) == left + marker + right
  {
    var text := left + [other] + right;
    if left == "" {
      assert text[1..] == right;
      assert forall i :: 0 <= i < |right| ==> right[i..][0] == right[i];
      assert !Occurs([other], right);
      AbsentUnchanged(right, [other], marker);
    } else {
      assert text[1..] == left[1..] + [other] + right;
      ReplaceSingle(left[1..], other, right, marker);
      assert left[0] in left;
    }
  }

  /** A longer value does not occur around a character that is foreign to it. */
  lemma ForeignCharacterBlocks(value: string, other: char, left: string, right: string)
    requires other !in value && |left| < |value| && |right| < |value|
    ensures !Occurs(value, left + [other] + right)
  {
    var text := left + [other] + right;
    forall i | 0 <= i <= |text| ensures !OccursAt(value, text, i) {
      if i <= |left| < i + |value| <= |text| {
        assert text[i..][|left| - i] == other != value[|left| - i];
      }
    }
  }

  /** Redacting a value and, after it, one foreign character that stands between two short texts. */
  lemma RedactTwo(value: string, other: char, left: string, right: string)
    requires |value| > 1 && other !in value && other !in left && other !in right
    requires |left| < |value| && |right| < |value|
    ensures Redacted(left + [other] + right, [Secret(value), Secret([other])]) == left + MARKER + right
  {
    var env := [Secret(value), Secret([other])];
    var values := [value, [other]];
    var rest := [Secret([other])];
    assert env[1..] == rest && rest[1..] == [];
    assert SecretValues(rest) == [[other]] + SecretValues([]) == [[other]];
    assert SecretValues(env) == [value] + SecretValues(rest) == values;
    SingleSorted(value);
    assert values[..1] == [value] && [value][1..] == [];
    assert InsertByLength([other], []) == [[other]];
    assert LongestFirst(values) == InsertByLength([other], [value]) == values;
    var text := left + [other] + right;
    ForeignCharacterBlocks(value, other, left, right);
    AbsentUnchanged(text, value, MARKER);
    ReplaceSingle(left, other, right, MARKER);
    var last := [[other]];
    assert values[1..] == last && last[1..] == [];
    assert last[0] in last;
    assert ReplaceAll(text, last, MARKER) == Replace(text, [other], MARKER);
    assert ReplaceAll(text, values, MARKER) == ReplaceAll(text, last, MARKER);
  }
}

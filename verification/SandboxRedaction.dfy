/** Which secrets a sandbox removes from the results of its commands and from its logs: a result is
  * redacted with the variables of the sandbox and of the command, the logs with everything that the
  * sandbox remembers. */
module SandboxRedaction {
  import opened Strings
  import opened Redaction

  /** A Python dict of environment variables, in insertion order. */
  type Variables = seq<(string, EnvValue)>

  predicate Has(d: Variables, key: string) {
    d != [] && (d[0].0 == key || Has(d[1..], key))
  }

  /** `d[key] = value`. */
  function Put(d: Variables, key: string, value: EnvValue): Variables {
    if d == [] then [(key, value)]
    else if d[0].0 == key then [(key, value)] + d[1..]
    else [d[0]] + Put(d[1..], key, value)
  }

  /** `{**d, **e}`. */
  function Merged(d: Variables, e: Variables): Variables
    decreases e
  {
    if e == [] then d else Merged(Put(d, e[0].0, e[0].1), e[1..])
  }

  /** `d.values()`. */
  function Values(d: Variables): (values: seq<EnvValue>)
    ensures |values| == |d| && forall i :: 0 <= i < |d| ==> values[i] == d[i].1
  {
    if d == [] then [] else [d[0].1] + Values(d[1..])
  }

  /** The variables of a command that are secrets. */
  function Given(environment: Variables): seq<(string, string)> {
    if environment == [] then []
    else
      match environment[0].1
      case Text(_) => Given(environment[1..])
      case Secret(value) => [(environment[0].0, value)] + Given(environment[1..])
  }

  lemma {:induction false} GivenAreTheSecrets(environment: Variables)
    ensures forall key, value :: (key, value) in Given(environment) <==> (key, Secret(value)) in environment
  {
    if environment != [] {
      assert environment == [environment[0]] + environment[1..];
      GivenAreTheSecrets(environment[1..]);
    }
  }

  /** The key under which a secret is remembered. */
  function Name(key: string, size: nat): string {
    key + ":" + Decimal(size)
  }

  /** `_remember_secrets`, over any number of commands. */
  function Remembered(d: Variables, given: seq<(string, string)>): Variables
    decreases given
  {
    if given == [] then d
    else Remembered(Put(d, Name(given[0].0, |d|), Secret(given[0].1)), given[1..])
  }

  class Sandbox {
    const secrets: Variables
    var redactionSecrets: Variables

    constructor (environment: Variables)
      ensures secrets == redactionSecrets == environment
    {
      secrets, redactionSecrets := environment, environment;
    }

    method RememberSecrets(environment: Variables)
      modifies this`redactionSecrets
      ensures redactionSecrets == Remembered(old(redactionSecrets), Given(environment))
    {
      ghost var goal := Remembered(redactionSecrets, Given(environment));
      for i := 0 to |environment|
        invariant Remembered(redactionSecrets, Given(environment[i..])) == goal
      {
        var (key, value) := environment[i];
        assert environment[i..][1..] == environment[i + 1..];
        if value.Secret? {
          assert ([(key, value.value)] + Given(environment[i + 1..]))[1..] == Given(environment[i + 1..]);
          redactionSecrets := Put(redactionSecrets, Name(key, |redactionSecrets|), value);
        }
      }
    }

    /** `_redact_result`, for the two texts of a result. */
    method RedactResult(stdout: string, stderr: string, environment: Variables) returns (out: string, err: string)
      ensures out == Redacted(stdout, Values(Merged(secrets, environment)))
      ensures err == Redacted(stderr, Values(Merged(secrets, environment)))
    {
      var values := secrets;
      for i := 0 to |environment|
        invariant Merged(values, environment[i..]) == Merged(secrets, environment)
      {
        assert environment[i..][1..] == environment[i + 1..];
        values := Put(values, environment[i].0, environment[i].1);
      }
      out := Redact(stdout, Values(values));
      err := Redact(stderr, Values(values));
    }

    /** `logs`. */
    method Logs(text: string) returns (r: string)
      ensures r == Redacted(text, Values(redactionSecrets))
    {
      r := Redact(text, Values(redactionSecrets));
    }
  }

  // ---------------------------------------------------------------- what a set of secrets removes

  /** No text shows the value once these secrets were removed from it. */
  ghost predicate Hides(secrets: seq<EnvValue>, value: string) {
    forall text :: !Occurs(value, Redacted(text, secrets))
  }

  ghost predicate AllClear(secrets: seq<EnvValue>) {
    forall v :: v != "" && Secret(v) in secrets ==> Clear(v, MARKER)
  }

  /** Some secret is a part of the value. */
  ghost predicate Covered(secrets: seq<EnvValue>, value: string) {
    exists v :: v != "" && Secret(v) in secrets && Occurs(v, value)
  }

  lemma OccursThrough(inner: string, middle: string, text: string)
    requires Occurs(inner, middle) && Occurs(middle, text)
    ensures Occurs(inner, text)
  {
    var i :| 0 <= i <= |middle| && OccursAt(inner, middle, i);
    var j :| 0 <= j <= |text| && OccursAt(middle, text, j);
    assert text[j..][i..] == text[i + j..];
    assert middle[i..] == text[j..][i..][..|middle| - i];
    assert OccursAt(inner, text, i + j);
  }

  /** While every secret is clear of the marker, a value is removed from every text if and only if some
    * secret is a part of it. */
  lemma HidesExactlyWhatIsCovered(secrets: seq<EnvValue>, value: string)
    requires AllClear(secrets)
    ensures Hides(secrets, value) <==> Covered(secrets, value)
  {
    if Covered(secrets, value) {
      var v :| v != "" && Secret(v) in secrets && Occurs(v, value);
      forall text ensures !Occurs(value, Redacted(text, secrets)) {
        SecretNeverSurvives(text, secrets, v);
        if Occurs(value, Redacted(text, secrets)) {
          OccursThrough(v, value, Redacted(text, secrets));
        }
      }
    } else {
      AllAbsentUnchanged(value, LongestFirst(SecretValues(secrets)), MARKER);
      assert value[0..] == value;
      assert OccursAt(value, Redacted(value, secrets), 0);
    }
  }

  // ---------------------------------------------------------------- results

  /** No key twice, as in every dict. */
  ghost predicate Distinct(d: Variables) {
    d == [] || (!Has(d[1..], d[0].0) && Distinct(d[1..]))
  }

  lemma {:induction false} HasEntry(d: Variables, entry: (string, EnvValue))
    requires entry in d
    ensures Has(d, entry.0)
  {
    if d[0] != entry {
      HasEntry(d[1..], entry);
    }
  }

  lemma {:induction false} PutExact(d: Variables, key: string, value: EnvValue)
    requires Distinct(d)
    ensures var d' := Put(d, key, value);
      && Distinct(d') && (forall k :: Has(d', k) <==> k == key || Has(d, k))
      && (forall entry :: entry in d' <==> entry == (key, value) || (entry in d && entry.0 != key))
  {
    if d != [] {
      assert d == [d[0]] + d[1..];
      if d[0].0 == key {
        forall entry | entry in d[1..] ensures entry.0 != key {
          HasEntry(d[1..], entry);
        }
      } else {
        PutExact(d[1..], key, value);
      }
    }
  }

  lemma {:induction false} MergedExact(d: Variables, e: Variables)
    requires Distinct(d) && Distinct(e)
    ensures forall entry :: entry in Merged(d, e) <==> entry in e || (entry in d && !Has(e, entry.0))
    decreases e
  {
    if e != [] {
      assert e == [e[0]] + e[1..];
      PutExact(d, e[0].0, e[0].1);
      MergedExact(Put(d, e[0].0, e[0].1), e[1..]);
      forall entry | entry in e[1..] ensures entry.0 != e[0].0 {
        HasEntry(e[1..], entry);
      }
    }
  }

  /** A non-empty secret of these variables is a part of the value. */
  ghost predicate CoveredBy(d: Variables, value: string) {
    exists entry :: entry in d && entry.1.Secret? && entry.1.value != "" && Occurs(entry.1.value, value)
  }

  lemma CoveredValues(d: Variables, value: string)
    ensures Covered(Values(d), value) <==> CoveredBy(d, value)
  {
    if Covered(Values(d), value) {
      var v :| v != "" && Secret(v) in Values(d) && Occurs(v, value);
      var i :| 0 <= i < |d| && Values(d)[i] == Secret(v);
      assert d[i] in d;
    }
    if CoveredBy(d, value) {
      var entry :| entry in d && entry.1.Secret? && entry.1.value != "" && Occurs(entry.1.value, value);
      var i :| 0 <= i < |d| && d[i] == entry;
      assert Values(d)[i] == entry.1;
    }
  }

  /** What the results of a command hide: with its secrets and the sandbox's clear of the marker, a value
    * is removed from every text if and only if it holds a secret of the command, or one of the sandbox
    * whose key the command does not use for something else. */
  lemma ResultHidesExactly(secrets: Variables, environment: Variables, value: string)
    requires Distinct(secrets) && Distinct(environment)
    requires AllClear(Values(Merged(secrets, environment)))
    ensures Hides(Values(Merged(secrets, environment)), value)
       <==> CoveredBy(environment, value)
            || exists entry :: entry in secrets && !Has(environment, entry.0)
                 && entry.1.Secret? && entry.1.value != "" && Occurs(entry.1.value, value)
  {
    HidesExactlyWhatIsCovered(Values(Merged(secrets, environment)), value);
    CoveredValues(Merged(secrets, environment), value);
    MergedExact(secrets, environment);
  }

  // ---------------------------------------------------------------- logs

  function One(value: EnvValue): multiset<string> {
    if value.Secret? && value.value != "" then multiset{value.value} else multiset{}
  }

  /** The non-empty secrets, each as often as it is there. */
  function Secrets(d: Variables): multiset<string> {
    if d == [] then multiset{} else One(d[0].1) + Secrets(d[1..])
  }

  function AllGiven(given: seq<(string, string)>): multiset<string> {
    if given == [] then multiset{} else One(Secret(given[0].1)) + AllGiven(given[1..])
  }

  /** What an assignment to this key replaces. */
  function Replaced(d: Variables, key: string): EnvValue {
    if d == [] then Text("") else if d[0].0 == key then d[0].1 else Replaced(d[1..], key)
  }

  lemma Regroup(a: multiset<string>, b: multiset<string>, lost: multiset<string>, c: multiset<string>,
                added: multiset<string>)
    requires b + lost == c + added
    ensures (a + b) + lost == (a + c) + added
  {
    assert (a + b) + lost == a + (b + lost);
  }

  lemma {:induction false} PutSecrets(d: Variables, key: string, value: EnvValue)
    ensures Secrets(Put(d, key, value)) + One(Replaced(d, key)) == Secrets(d) + One(value)
    ensures |Put(d, key, value)| == |d| + (if Has(d, key) then 0 else 1)
  {
    if d == [] {
      assert [(key, value)][1..] == [];
    } else if d[0].0 == key {
      assert ([(key, value)] + d[1..])[1..] == d[1..];
    } else {
      var put := Put(d[1..], key, value);
      assert ([d[0]] + put)[1..] == put;
      PutSecrets(d[1..], key, value);
      Regroup(One(d[0].1), Secrets(put), One(Replaced(d, key)), Secrets(d[1..]), One(value));
    }
  }

  /** No secret is remembered in the place of another. */
  predicate KeepsAll(d: Variables, given: seq<(string, string)>)
    decreases given
  {
    given == [] ||
    var key := Name(given[0].0, |d|);
    One(Replaced(d, key)) == multiset{} && KeepsAll(Put(d, key, Secret(given[0].1)), given[1..])
  }

  /** What is there after an assignment that replaced something, and after everything that follows. */
  lemma LostStays(after: multiset<string>, now: multiset<string>, rest: multiset<string>, lost: multiset<string>,
                  before: multiset<string>, added: multiset<string>)
    requires after <= now + rest && now + lost == before + added
    ensures after <= before + (added + rest)
    ensures after == before + (added + rest) <==> lost == multiset{} && after == now + rest
  {
    assert before + (added + rest) == (before + added) + rest == (now + lost) + rest == (now + rest) + lost;
    if lost != multiset{} {
      assert |lost| > 0;
      assert now + rest == after + ((now + rest) - after);
    }
  }

  /** However many secrets are remembered: the sandbox then knows every one of its own and of those, as
    * often as each was there, and no other, if and only if none took the place of another. */
  lemma {:induction false} RemembersExactly(d: Variables, given: seq<(string, string)>)
    ensures Secrets(Remembered(d, given)) <= Secrets(d) + AllGiven(given)
    ensures Secrets(Remembered(d, given)) == Secrets(d) + AllGiven(given) <==> KeepsAll(d, given)
    decreases given
  {
    if given != [] {
      var key, secret := Name(given[0].0, |d|), Secret(given[0].1);
      var d1 := Put(d, key, secret);
      PutSecrets(d, key, secret);
      RemembersExactly(d1, given[1..]);
      hide Put, Secrets, Replaced, Name, One;
      LostStays(Secrets(Remembered(d, given)), Secrets(d1), AllGiven(given[1..]), One(Replaced(d, key)), Secrets(d),
                One(secret));
    }
  }

  // ---------------------------------------------------------------- which keys can be overwritten

  /** No variable that was there at first has the name under which a secret will be remembered. */
  predicate Fresh(d: Variables, given: seq<(string, string)>, size: nat)
    decreases given
  {
    given == [] || (!Has(d, Name(given[0].0, size)) && Fresh(d, given[1..], size + 1))
  }

  /** What the remembered secrets add. */
  function Named(given: seq<(string, string)>, size: nat): Variables
    decreases given
  {
    if given == [] then [] else [(Name(given[0].0, size), Secret(given[0].1))] + Named(given[1..], size + 1)
  }

  function Number(digits: string): nat {
    if digits == "" then 0
    else
      var last := digits[|digits| - 1] as int - '0' as int;
      10 * Number(digits[..|digits| - 1]) + (if last >= 0 then last else 0)
  }

  lemma DigitReads(n: nat)
    requires n < 10
    ensures Digit(n) as int == '0' as int + n && Digit(n) != ':'
  {
  }

  lemma {:induction false} DecimalReads(n: nat)
    ensures Number(Decimal(n)) == n && ':' !in Decimal(n) && Decimal(n) != ""
  {
    hide Digit;
    DigitReads(n % 10);
    var last := [Digit(n % 10)];
    if n < 10 {
      assert Decimal(n) == last && last[..0] == "";
    } else {
      var front := Decimal(n / 10);
      DecimalReads(n / 10);
      assert Decimal(n) == front + last && (front + last)[..|front|] == front;
    }
  }

  lemma LaterColon(key: string, digits: string, other: string, rest: string)
    requires key + ":" + digits == other + ":" + rest
    ensures |key| < |other| ==> ':' in digits
  {
    var name := key + ":" + digits;
    assert name == other + ":" + rest;
    assert name[|other|] == ':';
    if |key| < |other| {
      assert digits[|other| - |key| - 1] == name[|other|];
    }
  }

  /** A name says under which key and at which size it was made. */
  lemma NamesDiffer(key: string, size: nat, other: string, later: nat)
    requires Name(key, size) == Name(other, later)
    ensures key == other && size == later
  {
    var a, b := Decimal(size), Decimal(later);
    DecimalReads(size);
    DecimalReads(later);
    LaterColon(key, a, other, b);
    LaterColon(other, b, key, a);
    var name := Name(key, size);
    assert name[..|key|] == key && name[|key| + 1..] == a;
    assert Name(other, later)[..|other|] == other && Name(other, later)[|other| + 1..] == b;
  }

  lemma {:induction false} HasConcat(d: Variables, e: Variables, key: string)
    ensures Has(d + e, key) <==> Has(d, key) || Has(e, key)
  {
    if d == [] {
      assert d + e == e;
    } else {
      assert (d + e)[1..] == d[1..] + e;
      HasConcat(d[1..], e, key);
    }
  }

  lemma {:induction false} PutNew(d: Variables, key: string, value: EnvValue)
    requires !Has(d, key)
    ensures Put(d, key, value) == d + [(key, value)]
  {
    if d != [] {
      PutNew(d[1..], key, value);
      assert d + [(key, value)] == [d[0]] + (d[1..] + [(key, value)]);
    }
  }

  lemma {:induction false} NeverGrowsMore(d: Variables, given: seq<(string, string)>)
    ensures |Remembered(d, given)| <= |d| + |given|
    decreases given
  {
    if given != [] {
      var key := Name(given[0].0, |d|);
      PutSecrets(d, key, Secret(given[0].1));
      NeverGrowsMore(Put(d, key, Secret(given[0].1)), given[1..]);
    }
  }

  /** A secret under a name that is taken, and whatever follows. */
  lemma HitShrinks(d: Variables, given: seq<(string, string)>)
    requires given != [] && Has(d, Name(given[0].0, |d|))
    ensures |Remembered(d, given)| < |d| + |given|
  {
    var key, secret := Name(given[0].0, |d|), Secret(given[0].1);
    PutSecrets(d, key, secret);
    NeverGrowsMore(Put(d, key, secret), given[1..]);
  }

  /** The names that secrets will get from now on are taken exactly if they were at first. */
  ghost predicate Alike(d: Variables, now: Variables) {
    forall key, size | size >= |now| :: Has(now, Name(key, size)) <==> Has(d, Name(key, size))
  }

  lemma AlikeAppend(d: Variables, now: Variables, key: string, value: EnvValue)
    requires Alike(d, now)
    ensures Alike(d, now + [(Name(key, |now|), value)])
  {
    hide Name;
    var entry := (Name(key, |now|), value);
    forall other, size | size > |now| ensures Has(now + [entry], Name(other, size)) <==> Has(d, Name(other, size)) {
      HasConcat(now, [entry], Name(other, size));
      if Name(key, |now|) == Name(other, size) {
        NamesDiffer(key, |now|, other, size);
      }
      assert [entry][1..] == [];
    }
  }

  /** From a moment at which nothing was overwritten yet. */
  lemma {:induction false} FreshFrom(d: Variables, now: Variables, given: seq<(string, string)>)
    requires Alike(d, now)
    ensures if Fresh(d, given, |now|) then Remembered(now, given) == now + Named(given, |now|)
            else |Remembered(now, given)| < |now| + |given|
    decreases given
  {
    hide Name, Has, Put;
    if given != [] {
      var key, secret := Name(given[0].0, |now|), Secret(given[0].1);
      if Has(now, key) {
        HitShrinks(now, given);
      } else {
        PutNew(now, key, secret);
        AlikeAppend(d, now, given[0].0, secret);
        var next := now + [(key, secret)];
        FreshFrom(d, next, given[1..]);
        assert next + Named(given[1..], |next|) == now + ([(key, secret)] + Named(given[1..], |next|));
      }
    }
  }

  lemma {:induction false} NamedSecrets(d: Variables, given: seq<(string, string)>, size: nat)
    ensures Secrets(d + Named(given, size)) == Secrets(d) + AllGiven(given)
    decreases |d| + |given|
  {
    hide Name;
    if d != [] {
      assert (d + Named(given, size))[1..] == d[1..] + Named(given, size);
      NamedSecrets(d[1..], given, size);
    } else if given != [] {
      var entry := (Name(given[0].0, size), Secret(given[0].1));
      assert d + Named(given, size) == [entry] + Named(given[1..], size + 1);
      assert ([entry] + Named(given[1..], size + 1))[1..] == [] + Named(given[1..], size + 1);
      NamedSecrets([], given[1..], size + 1);
    }
  }

  lemma {:induction false} NamedLength(given: seq<(string, string)>, size: nat)
    ensures |Named(given, size)| == |given|
    decreases given
  {
    if given != [] {
      NamedLength(given[1..], size + 1);
    }
  }

  /** Remembering overwrites nothing if and only if no variable that the sandbox began with has the name
    * under which one of the secrets is remembered: its key, a colon, and how many are there by then. */
  lemma OverwritesNothingExactly(d: Variables, given: seq<(string, string)>)
    ensures Remembered(d, given) == d + Named(given, |d|) <==> Fresh(d, given, |d|)
    ensures Fresh(d, given, |d|) ==> KeepsAll(d, given)
  {
    hide Has, Name, Put;
    FreshFrom(d, d, given);
    NamedLength(given, |d|);
    NamedSecrets(d, given, |d|);
    RemembersExactly(d, given);
  }

  // ---------------------------------------------------------------- any number of commands

  /** The secrets of all commands, in order. */
  function GivenBy(commands: seq<Variables>): seq<(string, string)> {
    if commands == [] then [] else Given(commands[0]) + GivenBy(commands[1..])
  }

  function RememberedAll(d: Variables, commands: seq<Variables>): Variables
    decreases commands
  {
    if commands == [] then d else RememberedAll(Remembered(d, Given(commands[0])), commands[1..])
  }

  lemma {:induction false} RememberedConcat(d: Variables, first: seq<(string, string)>, second: seq<(string, string)>)
    ensures Remembered(d, first + second) == Remembered(Remembered(d, first), second)
    decreases first
  {
    hide Put, Name;
    if first == [] {
      assert first + second == second;
    } else {
      assert (first + second)[1..] == first[1..] + second;
      RememberedConcat(Put(d, Name(first[0].0, |d|), Secret(first[0].1)), first[1..], second);
    }
  }

  lemma {:induction false} RememberedByAll(d: Variables, commands: seq<Variables>)
    ensures RememberedAll(d, commands) == Remembered(d, GivenBy(commands))
    decreases commands
  {
    hide Put, Name, Remembered;
    if commands == [] {
      assert Remembered(d, []) == d by { NothingRemembered(d); }
    } else {
      RememberedConcat(d, Given(commands[0]), GivenBy(commands[1..]));
      RememberedByAll(Remembered(d, Given(commands[0])), commands[1..]);
    }
  }

  lemma NothingRemembered(d: Variables)
    ensures Remembered(d, []) == d
  {
  }

  lemma {:induction false} InSecrets(d: Variables, v: string)
    ensures v in Secrets(d) <==> v != "" && Secret(v) in Values(d)
  {
    if d != [] {
      InSecrets(d[1..], v);
      assert Values(d) == [d[0].1] + Values(d[1..]);
    }
  }

  /** What the logs hide after any commands whose secrets are clear of the marker and were not remembered
    * in the place of others: exactly the values that hold a secret of the sandbox or of any command. */
  lemma LogsHideExactly(d: Variables, commands: seq<Variables>, value: string)
    requires KeepsAll(d, GivenBy(commands)) && AllClear(Values(RememberedAll(d, commands)))
    ensures Hides(Values(RememberedAll(d, commands)), value)
       <==> exists v :: v in Secrets(d) + AllGiven(GivenBy(commands)) && Occurs(v, value)
  {
    var kept := RememberedAll(d, commands);
    HidesExactlyWhatIsCovered(Values(kept), value);
    RememberedByAll(d, commands);
    RemembersExactly(d, GivenBy(commands));
    hide *;
    forall v ensures v in Secrets(kept) <==> v != "" && Secret(v) in Values(kept) {
      InSecrets(kept, v);
    }
    CoveredBySecrets(kept, value);
  }

  lemma CoveredBySecrets(d: Variables, value: string)
    ensures Covered(Values(d), value) <==> exists v :: v in Secrets(d) && Occurs(v, value)
  {
    forall v ensures v in Secrets(d) <==> v != "" && Secret(v) in Values(d) {
      InSecrets(d, v);
    }
  }

  /** A command that uses the key of a sandbox secret for something else prints the secret. */
  lemma ReusedKeyShows()
    ensures var secrets, environment := [("K", Secret("one"))], [("K", Text("x"))];
      Redacted("one", Values(Merged(secrets, environment))) == "one"
  {
    var secrets, environment := [("K", Secret("one"))], [("K", Text("x"))];
    assert Merged(secrets, environment) == environment;
    assert Values(environment) == [Text("x")];
    AllAbsentUnchanged("one", LongestFirst(SecretValues([Text("x")])), MARKER);
  }

  /** A secret of a command takes the place of a sandbox variable that happens to have the name under
    * which it is remembered; the logs then print what was there. */
  lemma OverwrittenSecretShows()
    ensures var secrets, environment := [("A:1", Secret("one"))], [("A", Secret("two"))];
      Redacted("one", Values(RememberedAll(secrets, [environment]))) == "one"
  {
    var secrets, environment := [("A:1", Secret("one"))], [("A", Secret("two"))];
    assert Decimal(1) == "1" && Name("A", 1) == "A:1";
    assert Given(environment) == [("A", "two")];
    assert Remembered(secrets, [("A", "two")]) == [("A:1", Secret("two"))];
    assert RememberedAll(secrets, [environment]) == [("A:1", Secret("two"))];
    assert Values([("A:1", Secret("two"))]) == [Secret("two")];
    assert !Occurs("two", "one") by {
      assert "two"[0] != "one"[0];
    }
    AllAbsentUnchanged("one", LongestFirst(SecretValues([Secret("two")])), MARKER);
  }
}

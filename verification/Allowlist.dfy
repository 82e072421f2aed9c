/** The domain allowlist: joined with commas by the sidecar, parsed and matched by the proxy.
  * `space` and `lower` stand for Python's white space test and lower-casing; every result holds
  * whatever they are. */
module Allowlist {
  import opened Strings

  predicate IsDot(c: char) {
    c == '.'
  }

  /** `item.strip().lower().rstrip(".")`, for list entries and requested hosts alike. */
  function Normalize(item: string, space: char -> bool, lower: string -> string): string {
    TrimRight(lower(Strip(item, space)), IsDot)
  }

  function NormalizeItems(items: seq<string>, space: char -> bool, lower: string -> string): seq<string> {
    if items == [] then []
    else
      var pattern := Normalize(items[0], space, lower);
      (if pattern == "" then [] else [pattern]) + NormalizeItems(items[1..], space, lower)
  }

  /** `normalize_patterns`. */
  method NormalizePatterns(raw: string, space: char -> bool, lower: string -> string) returns (patterns: seq<string>)
    ensures patterns == NormalizeItems(Split(raw, ','), space, lower)
  {
    hide Normalize, Split;
    patterns := [];
    var items := Split(raw, ',');
    for i := 0 to |items|
      invariant patterns + NormalizeItems(items[i..], space, lower) == NormalizeItems(items, space, lower)
    {
      var pattern := Normalize(items[i], space, lower);
      ghost var rest := NormalizeItems(items[i + 1..], space, lower);
      assert items[i..][0] == items[i] && items[i..][1..] == items[i + 1..];
      if pattern != "" {
        assert patterns + ([pattern] + rest) == patterns + [pattern] + rest;
        patterns := patterns + [pattern];
      } else {
        assert [] + rest == rest;
      }
    }
    assert items[|items|..] == [];
  }

  predicate EndsWith(text: string, suffix: string) {
    |suffix| <= |text| && text[|text| - |suffix|..] == suffix
  }

  /** `host_allowed`. */
  predicate HostAllowed(host: string, patterns: seq<string>, space: char -> bool, lower: string -> string) {
    var candidate := Normalize(host, space, lower);
    candidate != "" && exists i :: 0 <= i < |patterns| && patterns[i] != "" && Matches(candidate, patterns[i])
  }

  predicate Matches(candidate: string, pattern: string) {
    candidate == pattern || EndsWith(candidate, "." + pattern)
  }

  /** The labels of a domain name, RFC 1034, section 3.1. */
  function Labels(name: string): seq<string> {
    Split(name, '.')
  }

  ghost predicate LabelSuffix(suffix: seq<string>, labels: seq<string>) {
    |suffix| <= |labels| && labels[|labels| - |suffix|..] == suffix
  }

  lemma LabelsAreDotFree(name: string)
    ensures |Labels(name)| >= 1 && forall i :: 0 <= i < |Labels(name)| ==> '.' !in Labels(name)[i]
  {
  }

  lemma DottedSuffix(left: string, pattern: string)
    ensures EndsWith(left + ['.'] + pattern, "." + pattern)
  {
    assert left + ['.'] + pattern == left + ("." + pattern);
  }

  lemma TextMatchGivesLabels(candidate: string, pattern: string)
    requires EndsWith(candidate, "." + pattern)
    ensures LabelSuffix(Labels(pattern), Labels(candidate))
  {
    hide Split;
    var left := candidate[..|candidate| - |"." + pattern|];
    assert candidate == left + ("." + pattern) == left + ['.'] + pattern;
    SplitConcat(left, pattern, '.');
    assert Labels(candidate) == Labels(left) + Labels(pattern);
    assert (Labels(left) + Labels(pattern))[|Labels(left)|..] == Labels(pattern);
  }

  lemma LabelsGiveTextMatch(candidate: string, pattern: string)
    requires LabelSuffix(Labels(pattern), Labels(candidate))
    ensures Matches(candidate, pattern)
  {
    hide Split, Join, EndsWith;
    var labels, suffix := Labels(candidate), Labels(pattern);
    LabelsAreDotFree(pattern);
    JoinSplit(candidate, '.');
    JoinSplit(pattern, '.');
    var k := |labels| - |suffix|;
    assert labels == labels[..k] + suffix;
    if k > 0 {
      JoinConcat(labels[..k], suffix, '.');
      DottedSuffix(Join(labels[..k], '.'), pattern);
    } else {
      assert labels == suffix;
    }
  }

  /** Matching by text is matching by labels: never a partial label, always any subdomain. */
  lemma MatchIsLabelSuffix(candidate: string, pattern: string)
    ensures Matches(candidate, pattern) <==> LabelSuffix(Labels(pattern), Labels(candidate))
  {
    if EndsWith(candidate, "." + pattern) {
      TextMatchGivesLabels(candidate, pattern);
    }
    if LabelSuffix(Labels(pattern), Labels(candidate)) {
      LabelsGiveTextMatch(candidate, pattern);
    }
  }

  /** The proxy allows a host exactly when the labels of some entry that is not empty end the labels of
    * the normalised host. */
  lemma HostAllowedIsLabelMatch(host: string, patterns: seq<string>, space: char -> bool, lower: string -> string)
    ensures HostAllowed(host, patterns, space, lower)
       <==> exists i :: 0 <= i < |patterns| && patterns[i] != ""
              && LabelSuffix(Labels(patterns[i]), Labels(Normalize(host, space, lower)))
  {
    var candidate := Normalize(host, space, lower);
    forall i | 0 <= i < |patterns|
      ensures patterns[i] != "" && candidate != "" && Matches(candidate, patterns[i])
         <==> patterns[i] != "" && LabelSuffix(Labels(patterns[i]), Labels(candidate))
    {
      MatchIsLabelSuffix(candidate, patterns[i]);
      assert candidate == "" ==> Matches(candidate, patterns[i]) ==> patterns[i] == "";
    }
    hide Normalize, Matches, LabelSuffix, Labels;
  }

  // ---------------------------------------------------------------- through the environment variable

  /** An entry that already has the form the proxy normalises to. */
  ghost predicate Canonical(domain: string, space: char -> bool, lower: string -> string) {
    && domain != "" && ',' !in domain
    && (forall i :: 0 <= i < |domain| ==> !space(domain[i]))
    && lower(domain) == domain
    && domain[|domain| - 1] != '.'
  }

  lemma CanonicalUnchanged(domain: string, space: char -> bool, lower: string -> string)
    requires Canonical(domain, space, lower)
    ensures Normalize(domain, space, lower) == domain
  {
    assert TrimLeft(domain, space) == domain;
    assert TrimRight(domain, space) == domain;
  }

  lemma {:induction false} CanonicalItems(domains: seq<string>, space: char -> bool, lower: string -> string)
    requires forall i :: 0 <= i < |domains| ==> Canonical(domains[i], space, lower)
    ensures NormalizeItems(domains, space, lower) == domains
  {
    if domains != [] {
      CanonicalUnchanged(domains[0], space, lower);
      CanonicalItems(domains[1..], space, lower);
    }
  }

  /** What reaches the proxy is the list that was configured, and it decides by labels. Lower-casing
    * keeps the empty text empty. */
  lemma AllowlistEndToEnd(domains: seq<string>, host: string, space: char -> bool, lower: string -> string)
    requires forall i :: 0 <= i < |domains| ==> Canonical(domains[i], space, lower)
    requires lower("") == ""
    ensures var patterns := NormalizeItems(Split(Join(domains, ','), ','), space, lower);
      && patterns == domains
      && (HostAllowed(host, patterns, space, lower)
          <==> exists i :: 0 <= i < |domains| && LabelSuffix(Labels(domains[i]), Labels(Normalize(host, space, lower))))
  {
    if domains == [] {
      assert Split("", ',') == [""];
      assert Strip("", space) == "";
      assert Normalize("", space, lower) == "";
      assert [""][1..] == [];
      assert NormalizeItems([""], space, lower) == [] + NormalizeItems([], space, lower) == [];
    } else {
      SplitJoin(domains, ',');
      CanonicalItems(domains, space, lower);
    }
    HostAllowedIsLabelMatch(host, domains, space, lower);
  }

  // ---------------------------------------------------------------- however it is spelled

  /** A text that stands for a name: white space around it, any upper or lower case, dots at its end. */
  ghost predicate Spells(text: string, name: string, space: char -> bool, lower: string -> string) {
    exists left, inner, dots, right ::
      && text == left + (inner + right)
      && Only(left, space) && Only(right, space) && Only(inner, c => !space(c))
      && Only(dots, IsDot) && lower(inner) == name + dots && (name == "" || name[|name| - 1] != '.')
  }

  lemma SpelledNormal(text: string, name: string, space: char -> bool, lower: string -> string)
    requires Spells(text, name, space, lower)
    ensures Normalize(text, space, lower) == name
  {
    var left, inner, dots, right :|
      && text == left + (inner + right)
      && Only(left, space) && Only(right, space) && Only(inner, c => !space(c))
      && Only(dots, IsDot) && lower(inner) == name + dots && (name == "" || name[|name| - 1] != '.');
    hide Strip, IsDot;
    Stripped(left, inner, right, space);
    TrimRightSkips(name, dots, IsDot);
    assert TrimRight(name, IsDot) == name by { NoDotAtEnd(name); }
    hide TrimRight, Only;
  }

  lemma NoDotAtEnd(name: string)
    requires name == "" || name[|name| - 1] != '.'
    ensures TrimRight(name, IsDot) == name
  {
  }

  lemma {:induction false} SpelledItems(entries: seq<string>, names: seq<string>, space: char -> bool,
                                        lower: string -> string)
    requires |entries| == |names|
    requires forall i :: 0 <= i < |names| ==> names[i] != "" && Spells(entries[i], names[i], space, lower)
    ensures NormalizeItems(entries, space, lower) == names
  {
    hide Normalize, Spells;
    if entries != [] {
      SpelledNormal(entries[0], names[0], space, lower);
      SpelledItems(entries[1..], names[1..], space, lower);
    }
  }

  /** However entries and host are spelled, the host is allowed exactly if the labels of some entry's name
    * end the labels of its own. */
  lemma SpellingIsIgnored(entries: seq<string>, names: seq<string>, host: string, name: string, space: char -> bool,
                          lower: string -> string)
    requires |entries| == |names| > 0
    requires forall i :: 0 <= i < |names| ==>
      names[i] != "" && ',' !in entries[i] && Spells(entries[i], names[i], space, lower)
    requires Spells(host, name, space, lower)
    ensures HostAllowed(host, NormalizeItems(Split(Join(entries, ','), ','), space, lower), space, lower)
       <==> exists i :: 0 <= i < |names| && LabelSuffix(Labels(names[i]), Labels(name))
  {
    hide Spells, Normalize;
    SplitJoin(entries, ',');
    SpelledItems(entries, names, space, lower);
    SpelledNormal(host, name, space, lower);
    HostAllowedIsLabelMatch(host, names, space, lower);
  }

  /** Hosts that differ in case only are decided alike, whatever the patterns are. */
  lemma CaseIsIgnored(host: string, other: string, patterns: seq<string>, space: char -> bool, lower: string -> string)
    requires lower(host) == lower(other) && Only(host, c => !space(c)) && Only(other, c => !space(c))
    ensures HostAllowed(host, patterns, space, lower) <==> HostAllowed(other, patterns, space, lower)
  {
    assert Normalize(host, space, lower) == Normalize(other, space, lower) by {
      Stripped("", host, "", space);
      Stripped("", other, "", space);
      assert "" + (host + "") == host && "" + (other + "") == other;
    }
    hide Normalize, Matches;
  }
}

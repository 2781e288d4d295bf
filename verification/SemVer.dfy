/** Version precedence, section 11 of Semantic Versioning 2.0.0. Comparisons give -1, 0 or 1. */
module SemVer {
  datatype Identifier = Numeric(value: nat) | Alphanumeric(text: string)

  datatype Version = Version(major: nat, minor: nat, patch: nat, pre: seq<Identifier>, build: seq<string>)

  function CompareInt(a: int, b: int): int {
    if a < b then -1 else if a > b then 1 else 0
  }

  function CompareText(a: string, b: string): int {
    if a == [] && b == [] then 0
    else if a == [] then -1
    else if b == [] then 1
    else if a[0] != b[0] then CompareInt(a[0] as int, b[0] as int)
    else CompareText(a[1..], b[1..])
  }

  /** Numeric identifiers rank below alphanumeric ones. */
  function CompareIdentifier(a: Identifier, b: Identifier): int {
    match (a, b)
    case (Numeric(m), Numeric(n)) => CompareInt(m, n)
    case (Numeric(_), Alphanumeric(_)) => -1
    case (Alphanumeric(_), Numeric(_)) => 1
    case (Alphanumeric(s), Alphanumeric(t)) => CompareText(s, t)
  }

  /** A longer list of identifiers ranks above its own prefix. */
  function CompareIdentifiers(a: seq<Identifier>, b: seq<Identifier>): int {
    if a == [] && b == [] then 0
    else if a == [] then -1
    else if b == [] then 1
    else if CompareIdentifier(a[0], b[0]) != 0 then CompareIdentifier(a[0], b[0])
    else CompareIdentifiers(a[1..], b[1..])
  }

  /** A prerelease ranks below the release it precedes. */
  function ComparePre(a: seq<Identifier>, b: seq<Identifier>): int {
    if a == [] && b == [] then 0
    else if a == [] then 1
    else if b == [] then -1
    else CompareIdentifiers(a, b)
  }

  /** Build metadata does not count. */
  function Compare(a: Version, b: Version): int {
    if a.major != b.major then CompareInt(a.major, b.major)
    else if a.minor != b.minor then CompareInt(a.minor, b.minor)
    else if a.patch != b.patch then CompareInt(a.patch, b.patch)
    else ComparePre(a.pre, b.pre)
  }

  predicate AtMost(a: Version, b: Version) {
    Compare(a, b) <= 0
  }

  // Each comparison is antisymmetric, is 0 on equal arguments only, and is transitive.

  lemma {:induction false} TextOrder(a: string, b: string)
    ensures CompareText(a, b) == -CompareText(b, a)
    ensures CompareText(a, b) == 0 <==> a == b
  {
    if a != [] && b != [] && a[0] == b[0] {
      TextOrder(a[1..], b[1..]);
      assert a == [a[0]] + a[1..] && b == [b[0]] + b[1..];
    }
  }

  lemma {:induction false} TextTransitive(a: string, b: string, c: string)
    requires CompareText(a, b) <= 0 && CompareText(b, c) <= 0
    ensures CompareText(a, c) <= 0
  {
    if a != [] && b != [] && c != [] && a[0] == b[0] == c[0] {
      TextTransitive(a[1..], b[1..], c[1..]);
    }
  }

  lemma IdentifierOrder(a: Identifier, b: Identifier)
    ensures CompareIdentifier(a, b) == -CompareIdentifier(b, a)
    ensures CompareIdentifier(a, b) == 0 <==> a == b
  {
    if a.Alphanumeric? && b.Alphanumeric? {
      TextOrder(a.text, b.text);
    }
  }

  lemma IdentifierTransitive(a: Identifier, b: Identifier, c: Identifier)
    requires CompareIdentifier(a, b) <= 0 && CompareIdentifier(b, c) <= 0
    ensures CompareIdentifier(a, c) <= 0
  {
    if a.Alphanumeric? && b.Alphanumeric? && c.Alphanumeric? {
      TextTransitive(a.text, b.text, c.text);
    }
  }

  lemma {:induction false} IdentifiersOrder(a: seq<Identifier>, b: seq<Identifier>)
    ensures CompareIdentifiers(a, b) == -CompareIdentifiers(b, a)
    ensures CompareIdentifiers(a, b) == 0 <==> a == b
  {
    if a != [] && b != [] {
      IdentifierOrder(a[0], b[0]);
      IdentifiersOrder(a[1..], b[1..]);
      assert a == [a[0]] + a[1..] && b == [b[0]] + b[1..];
    }
  }

  lemma {:induction false} IdentifiersTransitive(a: seq<Identifier>, b: seq<Identifier>, c: seq<Identifier>)
    requires CompareIdentifiers(a, b) <= 0 && CompareIdentifiers(b, c) <= 0
    ensures CompareIdentifiers(a, c) <= 0
  {
    if a != [] && b != [] && c != [] {
      IdentifierOrder(a[0], b[0]);
      IdentifierOrder(b[0], c[0]);
      IdentifierOrder(a[0], c[0]);
      IdentifierTransitive(a[0], b[0], c[0]);
      if a[0] == c[0] {
        IdentifierTransitive(c[0], a[0], b[0]);
        IdentifierOrder(c[0], b[0]);
      }
      if a[0] == b[0] == c[0] {
        IdentifiersTransitive(a[1..], b[1..], c[1..]);
      }
    }
  }

  /** Precedence is a total preorder, and two versions are level exactly when they differ in
      build metadata at most. */
  lemma PrecedenceIsTotalPreorder(a: Version, b: Version, c: Version)
    ensures AtMost(a, b) || AtMost(b, a)
    ensures Compare(a, b) == -Compare(b, a)
    ensures AtMost(a, b) && AtMost(b, c) ==> AtMost(a, c)
    ensures Compare(a, b) == 0 <==> a.(build := b.build) == b
  {
    IdentifiersOrder(a.pre, b.pre);
    if a.pre != [] && b.pre != [] && c.pre != [] && CompareIdentifiers(a.pre, b.pre) <= 0
        && CompareIdentifiers(b.pre, c.pre) <= 0 {
      IdentifiersTransitive(a.pre, b.pre, c.pre);
    }
  }

  // ---------------------------------------------------------------------------
  // Which version ranks above which, position by position.
  // ---------------------------------------------------------------------------

  function Core(v: Version): seq<nat> {
    [v.major, v.minor, v.patch]
  }

  /** The first character that differs decides, in ASCII order, or one text continues the other. */
  ghost predicate TextBelow(a: string, b: string) {
    exists k :: 0 <= k <= |a| && k <= |b| && a[..k] == b[..k]
                && ((k == |a| && k < |b|) || (k < |a| && k < |b| && a[k] < b[k]))
  }

  /** Numbers by value, numbers below texts, texts in ASCII order. */
  ghost predicate IdentifierBelow(a: Identifier, b: Identifier) {
    || (a.Numeric? && b.Numeric? && a.value < b.value)
    || (a.Numeric? && b.Alphanumeric?)
    || (a.Alphanumeric? && b.Alphanumeric? && TextBelow(a.text, b.text))
  }

  /** The first identifier that differs decides, or one list continues the other. */
  ghost predicate IdentifiersBelow(a: seq<Identifier>, b: seq<Identifier>) {
    exists k :: 0 <= k <= |a| && k <= |b| && a[..k] == b[..k]
                && ((k == |a| && k < |b|) || (k < |a| && k < |b| && IdentifierBelow(a[k], b[k])))
  }

  /** Section 11: the first core number that differs decides; with equal cores a prerelease ranks
      below the release, and prereleases rank by their identifiers. */
  ghost predicate Precedes(a: Version, b: Version) {
    || (exists k :: 0 <= k < 3 && Core(a)[..k] == Core(b)[..k] && Core(a)[k] < Core(b)[k])
    || (Core(a) == Core(b) && a.pre != [] && b.pre == [])
    || (Core(a) == Core(b) && a.pre != [] && b.pre != [] && IdentifiersBelow(a.pre, b.pre))
  }

  lemma {:induction false} TextBelowIff(a: string, b: string)
    ensures CompareText(a, b) < 0 <==> TextBelow(a, b)
  {
    if a != [] && b != [] && a[0] == b[0] {
      TextBelowIff(a[1..], b[1..]);
      if k :| 0 <= k <= |a| && k <= |b| && a[..k] == b[..k]
              && ((k == |a| && k < |b|) || (k < |a| && k < |b| && a[k] < b[k])) {
        assert k > 0 && a[1..][..k - 1] == a[..k][1..] && b[1..][..k - 1] == b[..k][1..];
        assert a[1..][..k - 1] == b[1..][..k - 1];
      }
      if k :| 0 <= k <= |a[1..]| && k <= |b[1..]| && a[1..][..k] == b[1..][..k]
              && ((k == |a[1..]| && k < |b[1..]|) || (k < |a[1..]| && k < |b[1..]| && a[1..][k] < b[1..][k])) {
        assert a[..k + 1] == [a[0]] + a[1..][..k] && b[..k + 1] == [b[0]] + b[1..][..k];
      }
    } else {
      assert a[..0] == b[..0];
    }
  }

  lemma IdentifierBelowIff(a: Identifier, b: Identifier)
    ensures CompareIdentifier(a, b) < 0 <==> IdentifierBelow(a, b)
  {
    if a.Alphanumeric? && b.Alphanumeric? {
      TextBelowIff(a.text, b.text);
    }
  }

  lemma {:induction false} IdentifiersBelowIff(a: seq<Identifier>, b: seq<Identifier>)
    ensures CompareIdentifiers(a, b) < 0 <==> IdentifiersBelow(a, b)
  {
    hide IdentifierBelow;
    if a != [] && b != [] {
      IdentifierBelowIff(a[0], b[0]);
      IdentifierOrder(a[0], b[0]);
    }
    if a != [] && b != [] && a[0] == b[0] {
      IdentifiersBelowIff(a[1..], b[1..]);
      hide CompareIdentifier;
      if k :| 0 <= k <= |a| && k <= |b| && a[..k] == b[..k]
              && ((k == |a| && k < |b|) || (k < |a| && k < |b| && IdentifierBelow(a[k], b[k]))) {
        assert k > 0 ==> a[1..][..k - 1] == a[..k][1..] && b[1..][..k - 1] == b[..k][1..];
        assert k > 0 ==> a[1..][..k - 1] == b[1..][..k - 1];
      }
      if k :| 0 <= k <= |a[1..]| && k <= |b[1..]| && a[1..][..k] == b[1..][..k]
              && ((k == |a[1..]| && k < |b[1..]|)
                  || (k < |a[1..]| && k < |b[1..]| && IdentifierBelow(a[1..][k], b[1..][k]))) {
        assert a[..k + 1] == [a[0]] + a[1..][..k] && b[..k + 1] == [b[0]] + b[1..][..k];
      }
    } else {
      assert a[..0] == b[..0];
    }
  }

  lemma CoreDecides(a: Version, b: Version)
    ensures (exists k :: 0 <= k < 3 && Core(a)[..k] == Core(b)[..k] && Core(a)[k] < Core(b)[k]) <==>
              || a.major < b.major
              || (a.major == b.major && a.minor < b.minor)
              || (a.major == b.major && a.minor == b.minor && a.patch < b.patch)
  {
    var c, d := Core(a), Core(b);
    assert c[..0] == d[..0] && c[..1] == [a.major] && d[..1] == [b.major];
    assert c[..2] == [a.major, a.minor] && d[..2] == [b.major, b.minor];
    if a.major < b.major {
      assert c[0] < d[0];
    } else if a.major == b.major && a.minor < b.minor {
      assert c[1] < d[1];
    } else if a.major == b.major && a.minor == b.minor && a.patch < b.patch {
      assert c[2] < d[2];
    }
    if k :| 0 <= k < 3 && c[..k] == d[..k] && c[k] < d[k] {
      assert k == 0 || k == 1 || k == 2;
      assert k > 0 ==> c[..k][0] == d[..k][0];
      assert k > 1 ==> c[..k][1] == d[..k][1];
    }
  }

  /** The comparison is that of section 11, and versions are level exactly when neither precedes. */
  lemma PrecedenceIff(a: Version, b: Version)
    ensures Compare(a, b) < 0 <==> Precedes(a, b)
    ensures Compare(a, b) > 0 <==> Precedes(b, a)
  {
    PrecedenceIsTotalPreorder(a, b, b);
    CoreDecides(a, b);
    CoreDecides(b, a);
    IdentifiersBelowIff(a.pre, b.pre);
    IdentifiersBelowIff(b.pre, a.pre);
    IdentifiersOrder(a.pre, b.pre);
    hide IdentifiersBelow, CompareIdentifiers;
  }

  /** The order given as an example in section 11. */
  lemma SectionElevenExample()
    ensures var v := (pre: seq<Identifier>) => Version(1, 0, 0, pre, []);
            var alpha, beta, rc := Alphanumeric("alpha"), Alphanumeric("beta"), Alphanumeric("rc");
            && Precedes(v([alpha]), v([alpha, Numeric(1)]))
            && Precedes(v([alpha, Numeric(1)]), v([alpha, beta]))
            && Precedes(v([alpha, beta]), v([beta]))
            && Precedes(v([beta]), v([beta, Numeric(2)]))
            && Precedes(v([beta, Numeric(2)]), v([beta, Numeric(11)]))
            && Precedes(v([beta, Numeric(11)]), v([rc, Numeric(1)]))
            && Precedes(v([rc, Numeric(1)]), v([]))
  {
    var alpha, beta, rc := Alphanumeric("alpha"), Alphanumeric("beta"), Alphanumeric("rc");
    assert "alpha"[..0] == "beta"[..0] && "beta"[..0] == "rc"[..0];
    assert TextBelow("alpha", "beta") && TextBelow("beta", "rc");
    Below([alpha], [alpha, Numeric(1)], 1);
    Below([alpha, Numeric(1)], [alpha, beta], 1);
    Below([alpha, beta], [beta], 0);
    Below([beta], [beta, Numeric(2)], 1);
    Below([beta, Numeric(2)], [beta, Numeric(11)], 1);
    Below([beta, Numeric(11)], [rc, Numeric(1)], 0);
  }

  lemma Below(a: seq<Identifier>, b: seq<Identifier>, k: nat)
    requires k <= |a| && k <= |b| && a[..k] == b[..k]
    requires (k == |a| && k < |b|) || (k < |a| && k < |b| && IdentifierBelow(a[k], b[k]))
    ensures IdentifiersBelow(a, b)
  {
  }
}

/** Provider ids, and what the regular expression for them picks out. */
module ProviderId {
  import opened Prelude
  import opened Text

  const PREFIX := "vsphere://"

  predicate SeparatorAt(s: string, j: nat) {
    j + 3 <= |s| && s[j] == ':' && s[j + 1] == '/' && s[j + 2] == '/'
  }

  /** The first separator at or after `from`; `|s|` if there is none. */
  function FirstSeparator(s: string, from: nat): (j: nat)
    requires from <= |s|
    ensures from <= j <= |s| && (j < |s| ==> SeparatorAt(s, j))
    ensures forall i :: from <= i < j ==> !SeparatorAt(s, i)
    decreases |s| - from
  {
    if from == |s| || SeparatorAt(s, from) then from else FirstSeparator(s, from + 1)
  }

  /** The end of the line that contains position `from`. */
  function LineEnd(s: string, from: nat): (e: nat)
    requires from <= |s|
    ensures from <= e <= |s| && (e < |s| ==> s[e] == NL)
    ensures forall i :: from <= i < e ==> s[i] != NL
    decreases |s| - from
  {
    if from == |s| || s[from] == NL then from else LineEnd(s, from + 1)
  }

  /** The start of the line that contains position `from`. */
  function LineStart(s: string, from: nat): (b: nat)
    requires from <= |s|
    ensures b <= from && (b > 0 ==> s[b - 1] == NL)
    ensures forall i :: b <= i < from ==> s[i] != NL
  {
    if from == 0 || s[from - 1] == NL then from else LineStart(s, from - 1)
  }

  /** The last separator before `end`, given that there is one at `first`. */
  function LastSeparator(s: string, first: nat, end: nat): (j: nat)
    requires end <= |s| && first + 3 <= end && SeparatorAt(s, first)
    ensures first <= j && j + 3 <= end && SeparatorAt(s, j)
    ensures forall i :: j < i && i + 3 <= end ==> !SeparatorAt(s, i)
    decreases end
  {
    if SeparatorAt(s, end - 3) then end - 3 else LastSeparator(s, first, end - 1)
  }

  /** What follows the last separator of the first line that has one. */
  function ParseInstanceID(providerID: string): Option<string> {
    var first := FirstSeparator(providerID, 0);
    if first == |providerID| then None
    else
      var end := LineEnd(providerID, first + 3);
      Some(providerID[LastSeparator(providerID, first, end) + 3..end])
  }

  // ---------------------------------------------------------------------------
  // The regular expression `(?P<Provider>.*)://(?P<InstanceID>.*)`.
  // ---------------------------------------------------------------------------

  /** It matches from `i` to `k` with the separator at `j`; a dot matches all but a line feed. */
  ghost predicate Matches(s: string, i: nat, j: nat, k: nat) {
    && i <= j && j + 3 <= k <= |s| && SeparatorAt(s, j)
    && (forall n :: i <= n < j ==> s[n] != NL)
    && (forall n :: j + 3 <= n < k ==> s[n] != NL)
  }

  /** The match that is found: the leftmost, then the one whose first part is longest, then the
      one whose second part is. */
  ghost predicate Preferred(s: string, i: nat, j: nat, k: nat) {
    && Matches(s, i, j, k)
    && forall i': nat, j': nat, k': nat :: Matches(s, i', j', k') ==>
       i < i' || (i == i' && (j > j' || (j == j' && k >= k')))
  }

  /** The id that is parsed is the second part of the match that is found. */
  lemma ParsePrefers(s: string)
    ensures ParseInstanceID(s).None? <==> !exists i: nat, j: nat, k: nat :: Matches(s, i, j, k)
    ensures forall i: nat, j: nat, k: nat :: Preferred(s, i, j, k) ==> ParseInstanceID(s) == Some(s[j + 3..k])
    ensures ParseInstanceID(s).Some? ==> exists i: nat, j: nat, k: nat :: Preferred(s, i, j, k)
  {
    var first := FirstSeparator(s, 0);
    if first < |s| {
      FoundIsPreferred(s);
      hide SeparatorAt;
      var k := LineEnd(s, first + 3);
      forall i': nat, j': nat, k': nat | Preferred(s, i', j', k') ensures ParseInstanceID(s) == Some(s[j' + 3..k']) {
        PreferredIsUnique(s, LineStart(s, first), LastSeparator(s, first, k), k, i', j', k');
      }
    }
  }

  lemma PreferredIsUnique(s: string, i: nat, j: nat, k: nat, i': nat, j': nat, k': nat)
    requires Preferred(s, i, j, k) && Preferred(s, i', j', k')
    ensures i == i' && j == j' && k == k'
  {
  }

  lemma FoundIsPreferred(s: string)
    requires FirstSeparator(s, 0) < |s|
    ensures var first := FirstSeparator(s, 0);
            var k := LineEnd(s, first + 3);
            Preferred(s, LineStart(s, first), LastSeparator(s, first, k), k)
  {
    var first := FirstSeparator(s, 0);
    var i, k := LineStart(s, first), LineEnd(s, first + 3);
    var j := LastSeparator(s, first, k);
    assert forall n :: i <= n < k ==> s[n] != NL;
    forall i': nat, j': nat, k': nat | Matches(s, i', j', k')
      ensures i < i' || (i == i' && (j > j' || (j == j' && k >= k')))
    {
      StaysOnLine(s, first, i', j', k');
    }
  }

  /** A match that starts no later than the first separator's line lies on that line. */
  lemma StaysOnLine(s: string, first: nat, i: nat, j: nat, k: nat)
    requires first == FirstSeparator(s, 0) && first < |s| && Matches(s, i, j, k)
    ensures first <= j && LineStart(s, first) <= i
    ensures i == LineStart(s, first) ==>
        k <= LineEnd(s, first + 3) && j <= LastSeparator(s, first, LineEnd(s, first + 3))
  {
  }

  // ---------------------------------------------------------------------------
  // Round trip.
  // ---------------------------------------------------------------------------

  function ProviderID(id: string): string {
    PREFIX + id
  }

  /** Behind the prefix every position is that of the id. */
  lemma Shifted(id: string)
    ensures var s := ProviderID(id);
            && |s| == |id| + 10 && s[10..] == id && FirstSeparator(s, 0) == 7
            && (forall i :: 0 <= i < |id| ==> s[i + 10] == id[i])
  {
    var s := ProviderID(id);
    assert |PREFIX| == 10 && SeparatorAt(s, 7);
  }

  lemma SeparatorShifted(id: string, j: nat)
    requires j < |id|
    ensures SeparatorAt(id, j) <==> SeparatorAt(ProviderID(id), j + 10)
  {
    Shifted(id);
  }

  /** What is parsed of a provider id made of an instance id. */
  lemma ParsedFrom(id: string)
    ensures var s := ProviderID(id);
            && |s| == |id| + 10 && SeparatorAt(s, 7)
            && var end := LineEnd(s, 10);
               var j := LastSeparator(s, 7, end);
               && ParseInstanceID(s) == Some(s[j + 3..end])
               && (j == 7 || j >= 10)
  {
    Shifted(id);
    var s := ProviderID(id);
    assert |PREFIX| == 10 && SeparatorAt(s, 7);
  }

  lemma OneLineComesBack(id: string)
    requires OneLine(id) && forall j :: 0 <= j < |id| ==> !SeparatorAt(id, j)
    ensures ParseInstanceID(ProviderID(id)) == Some(id)
  {
    var s := ProviderID(id);
    Shifted(id);
    ParsedFrom(id);
    var end := LineEnd(s, 10);
    var j := LastSeparator(s, 7, end);
    assert forall i :: 10 <= i < |s| ==> s[i] == id[i - 10];
    assert end == |s|;
    if j >= 10 {
      SeparatorShifted(id, j - 10);
    }
    hide SeparatorAt, ParseInstanceID;
    assert s[10..end] == id;
  }

  lemma OnlyOneLineComesBack(id: string)
    requires ParseInstanceID(ProviderID(id)) == Some(id)
    ensures OneLine(id) && forall j :: 0 <= j < |id| ==> !SeparatorAt(id, j)
  {
    var s := ProviderID(id);
    Shifted(id);
    ParsedFrom(id);
    var end := LineEnd(s, 10);
    assert |id| == end - (LastSeparator(s, 7, end) + 3);
    assert end == |s| && LastSeparator(s, 7, end) == 7;
    hide SeparatorAt, ParseInstanceID;
    forall i | 0 <= i < |id| ensures id[i] != NL && !SeparatorAt(id, i) {
      SeparatorShifted(id, i);
    }
  }

  /** An instance id comes back from the provider id made of it exactly when it is one line
      without a separator. */
  lemma RoundTripIff(id: string)
    ensures ParseInstanceID(ProviderID(id)) == Some(id) <==>
              OneLine(id) && forall j :: 0 <= j < |id| ==> !SeparatorAt(id, j)
  {
    hide ParseInstanceID, SeparatorAt, OneLine;
    if ParseInstanceID(ProviderID(id)) == Some(id) {
      OnlyOneLineComesBack(id);
    }
    if OneLine(id) && forall j :: 0 <= j < |id| ==> !SeparatorAt(id, j) {
      OneLineComesBack(id);
    }
  }
}

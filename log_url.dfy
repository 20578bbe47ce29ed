/**
 * The mapping from a Prow job page to the build log stored behind it, shared by the demystifier
 * and the older summary tool.
 */
module LogUrl {
  import opened Wrappers
  import opened GoStrings

  const BuildLogSuffix := "/build-log.txt"
  const ProwPrefix := "https://prow.ci.openshift.org/view/gs/"
  const GcsBase := "https://gcsweb-ci.apps.ci.l2s4.p1.openshiftapps.com/gcs/"
  const TestTypeStart := "e2e-test-"

  /**
   * The first '/' at or after `k`, provided no newline comes before it: where `(.*?)/` ends when
   * it starts at `k` (`.` does not match a newline).
   */
  function SlashEnd(u: string, k: nat): (p: Option<nat>)
    decreases |u| - k
    ensures p.Some? ==> k <= p.value < |u| && u[p.value] == '/'
    ensures p.Some? ==> forall m :: k <= m < p.value ==> u[m] != '/' && u[m] != '\n'
  {
    if k >= |u| then None
    else if u[k] == '/' then Some(k)
    else if u[k] == '\n' then None
    else SlashEnd(u, k + 1)
  }

  /** Where a match of `e2e-test-(.*?)/` that starts at `i` ends, if one does. */
  function MatchEnd(u: string, i: nat): Option<nat> {
    SlashEnd(u, i + |TestTypeStart|)
  }

  /** A match of the test-type pattern starts at `i`. */
  predicate MatchesAt(u: string, i: nat) {
    OccursAt(u, TestTypeStart, i) && MatchEnd(u, i).Some?
  }

  /** The first start position, from `i` on, of a match of `e2e-test-(.*?)/`. */
  function FirstMatch(u: string, i: nat): (r: Option<nat>)
    decreases |u| - i
    ensures r.Some? ==> i <= r.value && MatchesAt(u, r.value)
  {
    match IndexFrom(u, TestTypeStart, i)
    case None => None
    case Some(j) =>
      if MatchEnd(u, j).Some? then Some(j) else FirstMatch(u, j + 1)
  }

  /** `re.FindString(originalURL)`: the text of the leftmost match, or "" when there is none. */
  function TestType(u: string): string {
    match FirstMatch(u, 0)
    case None => ""
    case Some(j) => u[j..MatchEnd(u, j).value + 1]
  }

  /** No match starts before the next occurrence of the literal `e2e-test-`. */
  lemma NoMatchBeforeLiteral(u: string, i: nat)
    ensures IndexFrom(u, TestTypeStart, i).Some? ==>
      forall k :: i <= k < IndexFrom(u, TestTypeStart, i).value ==> !MatchesAt(u, k)
    ensures IndexFrom(u, TestTypeStart, i).None? ==> forall k :: i <= k ==> !MatchesAt(u, k)
  {
    IndexFromIsFirst(u, TestTypeStart, i);
  }

  /** No match starts between `i` and the one FirstMatch finds. */
  lemma {:induction false} FirstMatchIsLeftmost(u: string, i: nat)
    requires FirstMatch(u, i).Some?
    decreases |u| - i
    ensures forall k :: i <= k < FirstMatch(u, i).value ==> !MatchesAt(u, k)
  {
    NoMatchBeforeLiteral(u, i);
    var j := IndexFrom(u, TestTypeStart, i).value;
    if MatchEnd(u, j).None? {
      assert FirstMatch(u, j + 1) == FirstMatch(u, i);
      FirstMatchIsLeftmost(u, j + 1);
      NoMatchAcross(u, i, j, FirstMatch(u, i).value);
    }
  }

  /** No match in `[i, j)`, none at `j` and none in `(j, v)` is none in `[i, v)`. */
  lemma NoMatchAcross(u: string, i: nat, j: nat, v: nat)
    requires i <= j < v && MatchEnd(u, j).None?
    requires forall k :: i <= k < j ==> !MatchesAt(u, k)
    requires forall k :: j + 1 <= k < v ==> !MatchesAt(u, k)
    ensures forall k :: i <= k < v ==> !MatchesAt(u, k)
  {
    assert !MatchesAt(u, j);
  }

  /** When FirstMatch finds nothing, no match starts at or after `i`. */
  lemma {:induction false} NoFirstMatchIsNone(u: string, i: nat)
    requires FirstMatch(u, i).None?
    decreases |u| - i
    ensures forall k :: i <= k ==> !MatchesAt(u, k)
  {
    NoMatchBeforeLiteral(u, i);
    var first := IndexFrom(u, TestTypeStart, i);
    if first.Some? {
      var j := first.value;
      assert FirstMatch(u, i) == FirstMatch(u, j + 1);
      NoFirstMatchIsNone(u, j + 1);
      assert !MatchesAt(u, j);
    }
  }

  /** The test type is empty exactly when the URL holds no match. */
  lemma TestTypeEmpty(u: string)
    ensures TestType(u) == "" <==> forall k :: !MatchesAt(u, k)
  {
    if FirstMatch(u, 0).None? {
      NoFirstMatchIsNone(u, 0);
    } else {
      assert MatchesAt(u, FirstMatch(u, 0).value);
    }
  }

  /** A non-empty test type is `e2e-test-`, then text without '/' or newline, then '/'. */
  lemma TestTypeShape(u: string)
    ensures var r := TestType(u);
      r == "" || (StartsWith(r, TestTypeStart) && EndsWith(r, "/") &&
                  forall k :: |TestTypeStart| <= k < |r| - 1 ==> r[k] != '/' && r[k] != '\n')
  {
    var r := TestType(u);
    if FirstMatch(u, 0).Some? {
      var j := FirstMatch(u, 0).value;
      var p := MatchEnd(u, j).value;
      assert r == u[j..p + 1];
      assert r[..|TestTypeStart|] == u[j..j + |TestTypeStart|];
      assert r[|r| - 1..] == [u[p]];
      forall k | |TestTypeStart| <= k < |r| - 1
        ensures r[k] != '/' && r[k] != '\n'
      {
        assert r[k] == u[j + k];
      }
    }
  }

  /**
   * `GenerateLogURL`: a URL that already ends in "/build-log.txt" is kept; otherwise the bucket path
   * after the Prow prefix and the test type name the build log under the storage browser. Go indexes
   * the second piece of the split, which panics when the prefix is absent; that case is excluded.
   */
  function GenerateLogURL(u: string): (r: string)
    requires EndsWith(u, BuildLogSuffix) || Contains(u, ProwPrefix)
    ensures EndsWith(u, BuildLogSuffix) ==> r == u
    ensures EndsWith(r, BuildLogSuffix)
  {
    if EndsWith(u, BuildLogSuffix) then u
    else
      SplitFound(u, ProwPrefix);
      var parts := Split(u, ProwPrefix);
      var prefix := GcsBase + parts[1] + "/artifacts/" + TestType(u);
      NamesBuildLog(prefix);
      prefix + "e2e/build-log.txt"
  }

  /** A text ending in "e2e/build-log.txt" ends in the build-log suffix. */
  lemma NamesBuildLog(prefix: string)
    ensures EndsWith(prefix + "e2e/build-log.txt", BuildLogSuffix)
  {
    var r := prefix + "e2e/build-log.txt";
    assert r[|r| - |BuildLogSuffix|..] == "e2e/build-log.txt"[3..];
  }

  /** The bucket path is the piece of the URL between the first Prow prefix and the next one, if any. */
  lemma BucketPath(u: string)
    requires Contains(u, ProwPrefix)
    ensures var parts := Split(u, ProwPrefix);
      |parts| >= 2 && Join(parts, ProwPrefix) == u && !Contains(parts[1], ProwPrefix) &&
      (!EndsWith(u, BuildLogSuffix) ==>
        GenerateLogURL(u) == GcsBase + parts[1] + "/artifacts/" + TestType(u) + "e2e/build-log.txt")
  {
    var parts := Split(u, ProwPrefix);
    SplitJoin(u, ProwPrefix);
    SplitPiecesAvoidSeparator(u, ProwPrefix);
  }

  /** Generating twice gives what generating once gives: a generated URL already names the build log. */
  lemma GenerateIdempotent(u: string)
    requires EndsWith(u, BuildLogSuffix) || Contains(u, ProwPrefix)
    ensures GenerateLogURL(GenerateLogURL(u)) == GenerateLogURL(u)
  {
  }
}

/**
 * The combined, slash-delimited form of a segmented credential name, as the
 * class documentation of ServiceInstanceCredentialName describes it:
 * every segment in order, each preceded by a '/', e.g. `/c/broker/offering/binding/credential`.
 * The base class that performs the join is not part of this model; this
 * module states the documented form only.
 */
module CredentialPath {

  /** A segment that contains no path separator. */
  predicate SlashFree(segment: string) {
    '/' !in segment
  }

  predicate AllSlashFree(segments: seq<string>) {
    forall k :: 0 <= k < |segments| ==> SlashFree(segments[k])
  }

  /** The full name: each segment preceded by a '/'. */
  function Join(segments: seq<string>): (path: string)
    ensures path == [] <==> segments == []
    ensures segments != [] ==> path[0] == '/'
  {
    if segments == [] then "" else "/" + segments[0] + Join(segments[1..])
  }

  /**
   * A slash-free segment followed by either nothing or a '/'-led rest is
   * read back unambiguously.
   */
  lemma SeparatorSplits(x: string, y: string, restX: string, restY: string)
    requires SlashFree(x) && SlashFree(y)
    requires restX == [] || restX[0] == '/'
    requires restY == [] || restY[0] == '/'
    requires x + restX == y + restY
    ensures x == y && restX == restY
  {
    assert forall k :: 0 <= k < |x| ==> (x + restX)[k] == x[k] && x[k] in x;
    assert forall k :: 0 <= k < |y| ==> (y + restY)[k] == y[k] && y[k] in y;
    assert restX != [] ==> (x + restX)[|x|] == '/';
    assert restY != [] ==> (y + restY)[|y|] == '/';
    assert |x| == |y|;
    assert x == (x + restX)[..|x|];
    assert y == (y + restY)[..|y|];
    assert restX == (x + restX)[|x|..];
    assert restY == (y + restY)[|y|..];
  }

  /** When no segment contains a '/', the full name determines the segments. */
  lemma {:induction false} JoinInjective(a: seq<string>, b: seq<string>)
    requires AllSlashFree(a) && AllSlashFree(b)
    ensures Join(a) == Join(b) ==> a == b
  {
    if Join(a) == Join(b) && a != [] && b != [] {
      var restA, restB := Join(a[1..]), Join(b[1..]);
      assert Join(a) == ['/'] + (a[0] + restA);
      assert Join(b) == ['/'] + (b[0] + restB);
      assert a[0] + restA == Join(a)[1..] == Join(b)[1..] == b[0] + restB;
      SeparatorSplits(a[0], b[0], restA, restB);
      JoinInjective(a[1..], b[1..]);
      assert a == [a[0]] + a[1..] && b == [b[0]] + b[1..];
    }
  }
}

/** `MapMaxIndex` (api/api.go:202-221): the key of the largest value, with -1 used as the
    "nothing chosen yet" sentinel. Go visits a map's entries in an unspecified order, so the
    entries arrive here as a sequence in whatever order the runtime picked. */
module Selection {

  predicate NoSentinel(vals: seq<(string, int)>) {
    forall k :: 0 <= k < |vals| ==> vals[k].1 != -1
  }

  /** Whether position `k` holds a largest value and no earlier position holds as large a one. */
  predicate FirstMaximum(vals: seq<(string, int)>, k: int) {
    0 <= k < |vals| &&
    (forall j :: 0 <= j < |vals| ==> vals[j].1 <= vals[k].1) &&
    (forall j :: 0 <= j < k ==> vals[j].1 < vals[k].1)
  }

  method MapMaxIndex(vals: seq<(string, int)>) returns (maxIndex: string)
    ensures |vals| == 0 ==> maxIndex == ""
    ensures |vals| > 0 ==> exists k :: 0 <= k < |vals| && vals[k].0 == maxIndex
    ensures |vals| > 0 && NoSentinel(vals) ==>
              exists k :: FirstMaximum(vals, k) && vals[k].0 == maxIndex
  {
    maxIndex := "";
    var max := -1;
    ghost var pos := -1;
    var i := 0;
    while i < |vals|
      invariant 0 <= i <= |vals|
      invariant i == 0 ==> maxIndex == "" && max == -1
      invariant i > 0 ==> 0 <= pos < i && vals[pos] == (maxIndex, max)
      invariant i > 0 && NoSentinel(vals[..i]) ==> FirstMaximum(vals[..i], pos)
    {
      var (key, val) := vals[i];
      if max == -1 {
        max := val;
        maxIndex := key;
        pos := i;
      } else if val > max {
        max := val;
        maxIndex := key;
        pos := i;
      }
      i := i + 1;
    }
    assert vals[..i] == vals;
  }
}

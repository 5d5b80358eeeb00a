// The shortprint output ring: one page, a head moved by the writer and a tail moved
// by the work function (ldd/shortprint/shortprint.c). Pointers are offsets in the page.
module ShortprintRing {
  import opened Common

  // shortp_out_space with the tail loaded twice: t1 for the comparison, t2 for the result.
  function SpaceAt(page: nat, head: nat, t1: nat, t2: nat): int {
    if head >= t1 then
      if t2 == 0 then page - head - 1 else page - head
    else
      t2 - head - 1
  }

  function Incr(page: nat, p: nat, n: nat): nat {
    if p + n >= page then p + n - page else p + n
  }

  // The free space as the work function computes it; it is 0 both for an empty ring and for no page.
  function FreeFigure(page: nat, head: nat, tail: nat): nat
    requires head < page
  {
    (page + tail - head) % page
  }

  // Two stream positions less than a page apart lie on the same lap or on consecutive ones.
  lemma Lap(page: nat, e: nat, a: nat)
    requires 0 < page && e <= a < e + page
    ensures a % page - e % page == a - e || a % page + page - e % page == a - e
    ensures a % page >= e % page <==> a % page - e % page == a - e
  {
    var qe, qa := e / page, a / page;
    DivMod(e, page);
    DivMod(a, page);
    if qa < qe { MultipleStep(qa, qe, page); }
    if qe < qa { MultipleStep(qe, qa, page); }
    if qe + 1 < qa { MultipleStep(qe + 1, qa, page); MultipleStep(qe, qe + 1, page); }
    if qa == qe + 1 { assert qa * page == qe * page + page; }
  }

  lemma IncrIsModular(page: nat, a: nat, n: nat)
    requires 0 < page && a % page + n <= page
    ensures Incr(page, a % page, n) == (a + n) % page
  {
    var q := a / page;
    assert a == q * page + a % page;
    if a % page + n == page {
      assert a + n == (q + 1) * page;
      DigitsUnique(page, q + 1, 0);
    } else {
      DigitsUnique(page, q, a % page + n);
    }
  }

  // A space value stays safe however far the consumer gets, during its evaluation
  // (e1 to e2) and after it: the writer will not reach an unsent byte or the page end.
  lemma SpaceIsSafe(page: nat, e1: nat, e2: nat, a: nat)
    requires 0 < page && e1 <= e2 <= a < e1 + page
    ensures var space := SpaceAt(page, a % page, e1 % page, e2 % page);
            space > 0 ==> a + space < e2 + page && a % page + space <= page
  {
    Lap(page, e1, a);
    Lap(page, e2, a);
    Lap(page, e1, e2);
  }

  // Evaluated while the tail stands still, the space is exact.
  lemma SpaceIsExact(page: nat, e: nat, a: nat)
    requires 0 < page && e <= a < e + page
    ensures SpaceAt(page, a % page, e % page, e % page) == Min(page - 1 - (a - e), page - a % page)
  {
    Lap(page, e, a);
  }

  lemma FreeFigureIs(page: nat, e: nat, a: nat)
    requires 0 < page && e <= a < e + page
    ensures FreeFigure(page, a % page, e % page) == if a == e then 0 else page - (a - e)
  {
    Lap(page, e, a);
    var n := page + e % page - a % page;
    if a % page < e % page || a == e {
      DigitsUnique(page, 1, n - page);
    } else {
      DigitsUnique(page, 0, n);
    }
  }

  // Evaluating the space while the ring drains can miss all of it in one way only: the
  // writer stands at the start of the page, the consumer at its last byte.
  predicate LostEvaluation(page: nat, head: nat, t1: nat, t2: nat) {
    head == 0 && t1 == page - 1 && t2 == 0
  }

  lemma NoSpaceMeans(page: nat, e1: nat, e2: nat, a: nat)
    requires 1 < page && e1 <= e2 <= a < e1 + page
    requires SpaceAt(page, a % page, e1 % page, e2 % page) <= 0
    ensures e1 == e2 ==> a == e2 + page - 1
    ensures e2 == a == e1 + 1 <==> a == e2 && LostEvaluation(page, a % page, e1 % page, e2 % page)
    ensures LostEvaluation(page, a % page, e1 % page, e2 % page) ==> e2 == a
  {
    Lap(page, e1, a);
    Lap(page, e2, a);
    Lap(page, e1, e2);
  }

  // The page as a window on the stream: position i of the stream sits at i % page.
  ghost predicate Window(buf: seq<byte>, stream: seq<byte>, from: nat)
    requires |buf| > 0
  {
    forall i :: from <= i < |stream| ==> buf[i % |buf|] == stream[i]
  }

  // The slots a safe writer fills hold no unsent byte.
  lemma FreeSlotsAreUnsent(page: nat, from: nat, upto: nat, space: nat, i: nat)
    requires 0 < page && from <= i < upto && upto + space < from + page && upto % page + space <= page
    ensures !(upto % page <= i % page < upto % page + space)
  {
    Lap(page, i, upto);
  }

  // Once a chunk is in place after the head, moving the head past it extends the window.
  lemma WindowGrows(buf: seq<byte>, stream: seq<byte>, from: nat, chunk: seq<byte>)
    requires |buf| > 0 && from <= |stream| && |stream| % |buf| + |chunk| <= |buf|
    requires Window(buf, stream, from)
    requires buf[|stream| % |buf|..|stream| % |buf| + |chunk|] == chunk
    ensures Window(buf, stream + chunk, from)
  {
    var head := |stream| % |buf|;
    forall i | |stream| <= i < |stream| + |chunk| ensures buf[i % |buf|] == (stream + chunk)[i] {
      var k := i - |stream|;
      IncrIsModular(|buf|, |stream|, k);
      assert buf[head..head + |chunk|][k] == buf[head + k];
    }
  }

  // Filling safe slots keeps the window.
  lemma StoreKeepsWindow(buf: seq<byte>, stream: seq<byte>, from: nat, space: nat, buf': seq<byte>)
    requires |buf'| == |buf| > 0 && from <= |stream|
    requires |stream| + space < from + |buf| && |stream| % |buf| + space <= |buf|
    requires forall k :: 0 <= k < |buf| && !(|stream| % |buf| <= k < |stream| % |buf| + space) ==> buf'[k] == buf[k]
    requires Window(buf, stream, from)
    ensures Window(buf', stream, from)
  {
    forall i | from <= i < |stream| ensures buf'[i % |buf|] == stream[i] {
      FreeSlotsAreUnsent(|buf|, from, |stream|, space, i);
    }
  }
}

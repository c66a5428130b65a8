/**
 * Detection of the OAuth callback request in the bytes that the client writes
 * to the local service (cmd/cli/tunnel_client.go).
 */
module Callback {
  import opened Bytes

  /** `maxBufferedTunnelBytes`. */
  const REQUEST_BUFFER := 8 * 1024

  /** Size of the buffer that a pipe reads its socket into, and so of the largest data frame. */
  const PIPE_BUFFER := 32 * 1024

  /** `looksLikeOAuthSuccessRequest`. */
  predicate LooksLikeCallback(data: bytes) {
    && Contains(data, Ascii("\r\n\r\n"))
    && Ascii("GET /") <= data
    && Contains(data, Ascii("code="))
    && Contains(data, Ascii("state="))
  }

  /** The append to `reqBuf` after a successful write of one data frame. */
  function Buffer(reqBuf: bytes, payload: bytes): bytes {
    if |reqBuf| < REQUEST_BUFFER then reqBuf + payload else reqBuf
  }

  /** A detected request stays detected while the buffer grows. */
  lemma DetectionGrows(data: bytes, more: bytes)
    requires LooksLikeCallback(data)
    ensures LooksLikeCallback(data + more)
  {
    ContainsGrows(data, more, Ascii("\r\n\r\n"));
    ContainsGrows(data, more, Ascii("code="));
    ContainsGrows(data, more, Ascii("state="));
  }

  // ----- frame splitting

  function Joined(chunks: seq<bytes>): bytes {
    if chunks == [] then [] else Joined(chunks[..|chunks| - 1]) + chunks[|chunks| - 1]
  }

  /** `reqBuf` after a series of data frames. */
  function Buffered(chunks: seq<bytes>): bytes {
    if chunks == [] then [] else Buffer(Buffered(chunks[..|chunks| - 1]), chunks[|chunks| - 1])
  }

  /** The initial part of the delivered bytes that the buffer holds for certain. */
  function Certain(all: bytes): bytes {
    if |all| <= REQUEST_BUFFER then all else all[..REQUEST_BUFFER]
  }

  /** The buffer lies between the certain part and everything delivered. */
  lemma {:induction false} BufferBounds(chunks: seq<bytes>)
    ensures Certain(Joined(chunks)) <= Buffered(chunks) <= Joined(chunks)
    ensures |Buffered(chunks)| < REQUEST_BUFFER ==> Buffered(chunks) == Joined(chunks)
  {
    if chunks != [] {
      BufferBounds(chunks[..|chunks| - 1]);
    }
  }

  /** The loop over the data frames of one stream: `oauthDone` after the last one. */
  method Detect(chunks: seq<bytes>) returns (reqBuf: bytes, oauthDone: bool)
    ensures reqBuf == Buffered(chunks)
    ensures oauthDone <==> LooksLikeCallback(Buffered(chunks))
  {
    hide LooksLikeCallback;
    reqBuf, oauthDone := [], false;
    assert !LooksLikeCallback([]) by { NothingIsNoCallback(); }
    for i := 0 to |chunks|
      invariant reqBuf == Buffered(chunks[..i])
      invariant oauthDone <==> LooksLikeCallback(reqBuf)
    {
      assert chunks[..i + 1][..i] == chunks[..i];
      if LooksLikeCallback(reqBuf) {
        DetectionGrows(reqBuf, chunks[i]);
      }
      if |reqBuf| < REQUEST_BUFFER {
        reqBuf := reqBuf + chunks[i];
      }
      if !oauthDone && LooksLikeCallback(reqBuf) {
        oauthDone := true;
      }
    }
    assert chunks[..|chunks|] == chunks;
  }

  lemma NothingIsNoCallback()
    ensures !LooksLikeCallback([])
  {
    assert |Ascii("GET /")| == 5;
  }

  /** Data frames as the pipes send them. */
  predicate Carriable(chunks: seq<bytes>) {
    forall i | 0 <= i < |chunks| :: 0 < |chunks[i]| <= PIPE_BUFFER
  }

  /** A cut into frames of full size, the first one possibly smaller. */
  function Sliced(b: bytes): seq<bytes> {
    if b == [] then []
    else if |b| <= PIPE_BUFFER then [b]
    else Sliced(b[..|b| - PIPE_BUFFER]) + [b[|b| - PIPE_BUFFER..]]
  }

  /** Once the buffer is full, the frames behind it are not buffered. */
  lemma {:induction false} BufferFull(head: seq<bytes>, b: bytes)
    requires |Buffered(head)| >= REQUEST_BUFFER && Carriable(head)
    ensures var chunks := head + Sliced(b);
            Joined(chunks) == Joined(head) + b && Buffered(chunks) == Buffered(head) && Carriable(chunks)
  {
    hide Joined, Buffered;
    if b == [] {
      assert head + Sliced(b) == head;
    } else if |b| <= PIPE_BUFFER {
      OneMoreChunk(head, b);
    } else {
      var init, last := b[..|b| - PIPE_BUFFER], b[|b| - PIPE_BUFFER..];
      BufferFull(head, init);
      OneMoreChunk(head + Sliced(init), last);
      assert head + Sliced(b) == (head + Sliced(init)) + [last];
      assert b == init + last && (Joined(head) + init) + last == Joined(head) + b;
    }
  }

  lemma OneMoreChunk(chunks: seq<bytes>, c: bytes)
    ensures Joined(chunks + [c]) == Joined(chunks) + c
    ensures Buffered(chunks + [c]) == Buffer(Buffered(chunks), c)
    ensures Joined([]) == [] && Buffered([]) == []
  {
    assert (chunks + [c])[..|chunks|] == chunks;
  }

  /** The longest initial part of the delivered bytes that the buffer can hold. */
  function Most(all: bytes): bytes {
    if |all| <= REQUEST_BUFFER - 1 + PIPE_BUFFER then all else all[..REQUEST_BUFFER - 1 + PIPE_BUFFER]
  }

  /** The last frame to be buffered finds at least one byte of room. */
  lemma {:induction false} BufferCapped(chunks: seq<bytes>)
    requires Carriable(chunks)
    ensures |Buffered(chunks)| <= REQUEST_BUFFER - 1 + PIPE_BUFFER
  {
    if chunks != [] {
      BufferCapped(chunks[..|chunks| - 1]);
      assert chunks[|chunks| - 1] in chunks;
    }
  }

  /** Whatever the cut, the buffer lies between the two, and so does the answer. */
  lemma BetweenCuts(chunks: seq<bytes>)
    requires Carriable(chunks)
    ensures var all := Joined(chunks);
            && (LooksLikeCallback(Certain(all)) ==> LooksLikeCallback(Buffered(chunks)))
            && (LooksLikeCallback(Buffered(chunks)) ==> LooksLikeCallback(Most(all)))
            && (LooksLikeCallback(Most(all)) ==> LooksLikeCallback(all))
  {
    hide LooksLikeCallback;
    BufferBounds(chunks);
    BufferCapped(chunks);
    var all := Joined(chunks);
    var low, buf, most := Certain(all), Buffered(chunks), Most(all);
    assert buf == low + buf[|low|..] && most == buf + most[|buf|..] && all == most + all[|most|..];
    if LooksLikeCallback(low) { DetectionGrows(low, buf[|low|..]); }
    if LooksLikeCallback(buf) { DetectionGrows(buf, most[|buf|..]); }
    if LooksLikeCallback(most) { DetectionGrows(most, all[|most|..]); }
  }

  /** A request that fits the buffer, sent in one frame. */
  lemma WholeCut(all: bytes) returns (chunks: seq<bytes>)
    requires |all| <= REQUEST_BUFFER
    ensures Joined(chunks) == all && Carriable(chunks) && Buffered(chunks) == all
  {
    if all == [] {
      chunks := [];
    } else {
      OneMoreChunk([], all);
      assert [] + [all] == [all] && [] + all == all;
      chunks := [all];
    }
  }

  /** A first frame that fills the buffer to the brim: nothing beyond the certain part is looked at. */
  lemma ShortestCut(all: bytes) returns (chunks: seq<bytes>)
    ensures Joined(chunks) == all && Carriable(chunks) && Buffered(chunks) == Certain(all)
  {
    hide Joined, Buffered;
    if |all| <= REQUEST_BUFFER {
      chunks := WholeCut(all);
    } else {
      var low, high := all[..REQUEST_BUFFER], all[REQUEST_BUFFER..];
      OneMoreChunk([], low);
      assert [] + [low] == [low] && [] + low == low;
      BufferFull([low], high);
      assert low + high == all;
      chunks := [low] + Sliced(high);
    }
  }

  /** A first frame that leaves room for one byte, and a second one of full size. */
  lemma LongestCut(all: bytes) returns (chunks: seq<bytes>)
    ensures Joined(chunks) == all && Carriable(chunks) && Buffered(chunks) == Most(all)
  {
    hide Joined, Buffered;
    if |all| <= REQUEST_BUFFER {
      chunks := WholeCut(all);
    } else {
      var most := Most(all);
      var low, mid, high := most[..REQUEST_BUFFER - 1], most[REQUEST_BUFFER - 1..], all[|most|..];
      OneMoreChunk([], low);
      assert [] + [low] == [low] && [] + low == low;
      OneMoreChunk([low], mid);
      assert low + mid == most;
      BufferFull([low] + [mid], high);
      assert most + high == all;
      chunks := [low] + [mid] + Sliced(high);
    }
  }

  /**
   * All cuts of a request into frames give the same answer, exactly if the shortest and the longest part of it that
   * a cut can leave in the buffer do.
   */
  lemma SplittingIrrelevant(all: bytes)
    ensures (forall a, b | Joined(a) == all && Joined(b) == all && Carriable(a) && Carriable(b) ::
               LooksLikeCallback(Buffered(a)) == LooksLikeCallback(Buffered(b)))
            <==> LooksLikeCallback(Certain(all)) == LooksLikeCallback(Most(all))
  {
    hide LooksLikeCallback, Joined, Buffered;
    if LooksLikeCallback(Certain(all)) == LooksLikeCallback(Most(all)) {
      forall a, b | Joined(a) == all && Joined(b) == all && Carriable(a) && Carriable(b)
        ensures LooksLikeCallback(Buffered(a)) == LooksLikeCallback(Buffered(b))
      {
        BetweenCuts(a);
        BetweenCuts(b);
      }
    } else {
      var a := ShortestCut(all);
      var b := LongestCut(all);
      assert Joined(a) == all && Joined(b) == all;
    }
  }

  /** Every cut gives the answer of the whole request, exactly if the certain part of the buffer gives it. */
  lemma EveryCutIsRight(all: bytes)
    ensures (forall chunks | Joined(chunks) == all && Carriable(chunks) ::
               LooksLikeCallback(Buffered(chunks)) == LooksLikeCallback(all))
            <==> LooksLikeCallback(Certain(all)) == LooksLikeCallback(all)
  {
    hide LooksLikeCallback, Joined, Buffered;
    if LooksLikeCallback(Certain(all)) == LooksLikeCallback(all) {
      forall chunks | Joined(chunks) == all && Carriable(chunks)
        ensures LooksLikeCallback(Buffered(chunks)) == LooksLikeCallback(all)
      {
        BetweenCuts(chunks);
      }
    } else {
      var chunks := ShortestCut(all);
    }
  }

  /** No cut is detected, exactly if the longest part that a cut can leave in the buffer is not. */
  lemma MissedByEveryCut(all: bytes)
    ensures (forall chunks | Joined(chunks) == all && Carriable(chunks) :: !LooksLikeCallback(Buffered(chunks)))
            <==> !LooksLikeCallback(Most(all))
  {
    hide LooksLikeCallback, Joined, Buffered;
    if LooksLikeCallback(Most(all)) {
      var chunks := LongestCut(all);
    } else {
      forall chunks | Joined(chunks) == all && Carriable(chunks) ensures !LooksLikeCallback(Buffered(chunks)) {
        BetweenCuts(chunks);
      }
    }
  }

  // ----- requests on which it depends

  const HEAD := "GET /code=state="

  /** A callback request whose header is padded with `n` bytes. */
  function Padded(n: nat): bytes {
    Ascii(HEAD) + seq(n, _ => 120) + Ascii("\r\n\r\n")
  }

  lemma PaddedIsCallback(n: nat)
    ensures LooksLikeCallback(Padded(n))
  {
    var all := Padded(n);
    assert OccursAt(all, Ascii("\r\n\r\n"), n + 16);
    assert all[5..10] == Ascii("code=");
    assert OccursAt(all, Ascii("code="), 5);
    assert all[10..16] == Ascii("state=");
    assert OccursAt(all, Ascii("state="), 10);
    assert all[..5] == Ascii("GET /");
  }

  /** Without its end the header is no callback request. */
  lemma HeaderIsNotEnough(n: nat, k: nat)
    requires k <= 16 + n
    ensures !LooksLikeCallback(Padded(n)[..k])
  {
    var low := Padded(n)[..k];
    forall i | 0 <= i < |low| ensures low[i] != 13 {
      if i < 16 {
        assert low[i] == HEAD[i] as int;
      }
    }
    forall i | 0 <= i <= |low| ensures !OccursAt(low, Ascii("\r\n\r\n"), i) {
      if i + 4 <= |low| {
        assert low[i..i + 4][0] == low[i];
      }
    }
  }

  /** Two cuts of the same request, both of them possible on the wire, of which only one is detected. */
  lemma CutsDisagree() returns (one: seq<bytes>, two: seq<bytes>)
    ensures Joined(one) == Joined(two) == Padded(REQUEST_BUFFER) && Carriable(one) && Carriable(two)
    ensures LooksLikeCallback(Buffered(one)) && !LooksLikeCallback(Buffered(two))
  {
    hide LooksLikeCallback, Joined, Buffered;
    PaddedIsCallback(REQUEST_BUFFER);
    HeaderIsNotEnough(REQUEST_BUFFER, REQUEST_BUFFER);
    var all := Padded(REQUEST_BUFFER);
    one := LongestCut(all);
    two := ShortestCut(all);
    assert Most(all) == all;
  }

  /** A request with a header beyond anything the buffer can hold is a callback that every cut misses. */
  lemma LongHeadersAreMissed(n: nat, chunks: seq<bytes>)
    requires n >= REQUEST_BUFFER + PIPE_BUFFER && Joined(chunks) == Padded(n) && Carriable(chunks)
    ensures LooksLikeCallback(Padded(n)) && !LooksLikeCallback(Buffered(chunks))
  {
    hide LooksLikeCallback, Joined, Buffered;
    PaddedIsCallback(n);
    HeaderIsNotEnough(n, REQUEST_BUFFER - 1 + PIPE_BUFFER);
    BetweenCuts(chunks);
  }

  // ----- requests that are none

  /** Some character of the pattern does not occur in the text at all. */
  lemma Missing(text: bytes, pat: bytes, j: nat)
    requires j < |pat| && forall i | 0 <= i < |text| :: text[i] != pat[j]
    ensures !Contains(text, pat)
  {
    forall i | 0 <= i <= |text| ensures !OccursAt(text, pat, i) {
      if i + |pat| <= |text| {
        assert text[i..i + |pat|][j] == text[i + j];
      }
    }
  }

  const GRANTED := "GET /?code=a&state=b\r\n\r\n"
  const DENIED := "GET /?error=no&state=b\r\n\r\n"
  const STATELESS := "GET /?code=a\r\n\r\n"
  const POSTED := "PUT /?code=a&state=b\r\n\r\n"
  const UNENDED := "GET /?code=a&state=b\r\n"

  lemma GrantedIsCallback()
    ensures LooksLikeCallback(Ascii(GRANTED))
  {
    var b := Ascii(GRANTED);
    assert OccursAt(b, Ascii("code="), 6);
    assert OccursAt(b, Ascii("state="), 13);
    assert OccursAt(b, Ascii("\r\n\r\n"), 20);
    assert b[..5] == Ascii("GET /");
  }

  /** Each of the four marks is needed: no code, no state, another method, an unfinished header. */
  lemma TheseAreNot()
    ensures !LooksLikeCallback(Ascii(DENIED)) && !LooksLikeCallback(Ascii(STATELESS))
    ensures !LooksLikeCallback(Ascii(POSTED)) && !LooksLikeCallback(Ascii(UNENDED))
  {
    hide LooksLikeCallback;
    DeniedIsNot();
    StatelessIsNot();
    PostedIsNot();
    UnendedIsNot();
  }

  lemma DeniedIsNot()
    ensures !LooksLikeCallback(Ascii(DENIED))
  {
    Missing(Ascii(DENIED), Ascii("code="), 2);
  }

  lemma StatelessIsNot()
    ensures !LooksLikeCallback(Ascii(STATELESS))
  {
    Missing(Ascii(STATELESS), Ascii("state="), 0);
  }

  lemma PostedIsNot()
    ensures !LooksLikeCallback(Ascii(POSTED))
  {
    assert Ascii(POSTED)[0] != Ascii("GET /")[0];
  }

  lemma UnendedIsNot()
    ensures !LooksLikeCallback(Ascii(UNENDED))
  {
    var u := Ascii(UNENDED);
    forall i | 0 <= i <= |u| ensures !OccursAt(u, Ascii("\r\n\r\n"), i) {
      if i + 4 <= |u| {
        assert u[i..i + 4][0] == u[i];
      }
    }
  }
}

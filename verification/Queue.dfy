/**
 * The pieces of the offline queue that only compute (mobile/src/stores/outbox.ts): chunking,
 * merging, and when to retry.
 */
module Queue {
  import opened Options
  import opened Names
  import opened Money
  import opened Requests

  const MAX_PING_BATCH := 64
  const MAX_ATTENTION := 50

  /** A queued write: its idempotency key and its body. Fixes of a breadcrumb batch are opaque. */
  datatype Item =
    | InItem(clientId: string, body: Body)
    | OutItem(clientId: string, entry: string, body: Body)
    | PingItem(clientId: string, pings: seq<nat>)

  /** The one trace a dropped item leaves, with the entry row it marks. */
  datatype Attention = Attention(clientId: string, entry: Option<string>, code: string)

  predicate Retryable(status: int) {
    status == 0 || status == 401 || status == 429 || status >= 500
  }

  function AttentionFor(item: Item, code: string): Attention {
    Attention(item.clientId, if item.OutItem? then Some(item.entry) else if item.InItem? then Some(item.clientId)
      else None, code)
  }

  /** [...records, record].slice(0, MAX_ATTENTION): the newest is the one evicted. */
  function Capped(a: seq<Attention>, r: Attention): (s: seq<Attention>)
    ensures |s| <= MAX_ATTENTION && s == if |a| < MAX_ATTENTION then a + [r] else a[..MAX_ATTENTION]
  {
    (a + [r])[..if |a| < MAX_ATTENTION then |a| + 1 else MAX_ATTENTION]
  }

  /* ---- chunk ---- */

  function ChunkKey(item: Item, k: nat): string {
    item.clientId + ['-'] + Decimal(k)
  }

  /** From the k-th piece on. */
  function Pieces(item: Item, k: nat): seq<Item>
    requires item.PingItem?
    decreases |item.pings| - k * MAX_PING_BATCH
  {
    var from := k * MAX_PING_BATCH;
    if from >= |item.pings| then []
    else
      var to := if from + MAX_PING_BATCH < |item.pings| then from + MAX_PING_BATCH else |item.pings|;
      [PingItem(ChunkKey(item, k), item.pings[from..to])] + Pieces(item, k + 1)
  }

  function Chunks(item: Item): seq<Item> {
    if !item.PingItem? || |item.pings| <= MAX_PING_BATCH then [item] else Pieces(item, 0)
  }

  lemma Regroup<T>(a: seq<T>, b: seq<T>, c: seq<T>)
    ensures (a + b) + c == a + (b + c)
  {
  }

  method Chunk(item: Item) returns (out: seq<Item>)
    ensures out == Chunks(item)
  {
    if !item.PingItem? || |item.pings| <= MAX_PING_BATCH {
      return [item];
    }
    out := [];
    var i := 0;
    ghost var k: nat := 0;
    while i < |item.pings|
      invariant i == k * MAX_PING_BATCH
      invariant out + Pieces(item, k) == Pieces(item, 0)
      decreases |item.pings| - i
    {
      var to := if i + MAX_PING_BATCH < |item.pings| then i + MAX_PING_BATCH else |item.pings|;
      var piece := PingItem(ChunkKey(item, i / MAX_PING_BATCH), item.pings[i..to]);
      assert Pieces(item, k) == [piece] + Pieces(item, k + 1);
      Regroup(out, [piece], Pieces(item, k + 1));
      out := out + [piece];
      i := i + MAX_PING_BATCH;
      k := k + 1;
    }
  }

  function PingsOf(items: seq<Item>): seq<nat> {
    if items == [] then [] else (if items[0].PingItem? then items[0].pings else []) + PingsOf(items[1..])
  }

  ghost predicate IsPiece(item: Item, k: nat, piece: Item) {
    piece.PingItem? && piece.clientId == ChunkKey(item, k) && 0 < |piece.pings| <= MAX_PING_BATCH
  }

  function Start(item: Item, k: nat): nat
    requires item.PingItem?
  {
    if k * MAX_PING_BATCH < |item.pings| then k * MAX_PING_BATCH else |item.pings|
  }

  lemma CutTwice<T>(s: seq<T>, from: nat, to: nat)
    requires from <= to <= |s|
    ensures s[from..] == s[from..to] + s[to..]
  {
  }

  lemma {:induction false} PiecesConcat(item: Item, k: nat)
    requires item.PingItem?
    ensures PingsOf(Pieces(item, k)) == item.pings[Start(item, k)..]
    decreases |item.pings| - k * MAX_PING_BATCH
  {
    if k * MAX_PING_BATCH < |item.pings| {
      PiecesConcat(item, k + 1);
      assert Pieces(item, k)[1..] == Pieces(item, k + 1);
      CutTwice(item.pings, Start(item, k), Start(item, k + 1));
    }
  }

  lemma {:induction false} PieceAt(item: Item, k: nat, j: nat)
    requires item.PingItem? && j < |Pieces(item, k)|
    ensures IsPiece(item, k + j, Pieces(item, k)[j])
    decreases j
  {
    if j > 0 {
      PieceAt(item, k + 1, j - 1);
      assert Pieces(item, k)[1..] == Pieces(item, k + 1);
    }
  }

  lemma KeysDiffer(item: Item, j: nat, k: nat)
    requires j != k
    ensures ChunkKey(item, j) != ChunkKey(item, k)
  {
    DecimalReads(j);
    DecimalReads(k);
    var n := |item.clientId| + 1;
    assert ChunkKey(item, j)[n..] == Decimal(j) && ChunkKey(item, k)[n..] == Decimal(k);
  }

  function Keys(items: seq<Item>): (r: seq<string>)
    ensures |r| == |items| && forall k :: 0 <= k < |r| ==> r[k] == items[k].clientId
  {
    seq(|items|, k requires 0 <= k < |items| => items[k].clientId)
  }

  /** Piece k of a cut batch: 64 fixes unless it is the last, under the batch's key, a dash and k. */
  ghost predicate CutAs(item: Item, pieces: seq<Item>, k: nat)
    requires k < |pieces|
  {
    && pieces[k].PingItem? && 0 < |pieces[k].pings| <= 64 && (k + 1 < |pieces| ==> |pieces[k].pings| == 64)
    && pieces[k].clientId == item.clientId + "-" + Decimal(k)
  }

  lemma {:induction false} FullBefore(item: Item, k: nat, j: nat)
    requires item.PingItem? && j + 1 < |Pieces(item, k)|
    ensures Pieces(item, k)[j].PingItem? && |Pieces(item, k)[j].pings| == 64
    decreases j
  {
    assert Pieces(item, k)[1..] == Pieces(item, k + 1);
    if j > 0 {
      FullBefore(item, k + 1, j - 1);
    } else {
      assert Pieces(item, k + 1) != [];
    }
  }

  /**
   * A clock tap or a batch of at most 64 fixes is queued as it is. A longer batch is cut into pieces that
   * together are the batch, each under its own key, all of 64 but the last, which is not empty.
   */
  lemma ChunksAreTheBatch(item: Item)
    ensures Chunks(item) != [] && Distinct(Keys(Chunks(item)))
    ensures !item.PingItem? || |item.pings| <= 64 ==> Chunks(item) == [item]
    ensures item.PingItem? ==> PingsOf(Chunks(item)) == item.pings
    ensures item.PingItem? && |item.pings| > 64 ==>
              forall k: nat {:trigger CutAs(item, Chunks(item), k)} :: k < |Chunks(item)| ==>
                CutAs(item, Chunks(item), k)
  {
    if item.PingItem? && |item.pings| > MAX_PING_BATCH {
      PiecesConcat(item, 0);
      var pieces := Pieces(item, 0);
      forall j: nat | j < |pieces|
        ensures IsPiece(item, j, pieces[j])
      {
        PieceAt(item, 0, j);
      }
      forall j: nat, k: nat | j < k < |pieces|
        ensures Keys(pieces)[j] != Keys(pieces)[k]
      {
        assert IsPiece(item, j, pieces[j]) && IsPiece(item, k, pieces[k]);
        KeysDiffer(item, j, k);
      }
      forall k: nat | k < |pieces|
        ensures CutAs(item, pieces, k)
      {
        assert IsPiece(item, k, pieces[k]);
        if k + 1 < |pieces| {
          FullBefore(item, 0, k);
        }
      }
    } else {
      assert Chunks(item)[1..] == [];
    }
  }
}

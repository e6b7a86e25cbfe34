/**
 examples/tcp/tcp-large-transfer.cc: a buffer of letters is written over and over to a socket that may
 take only part of a write, or refuse it; the stream the socket gets must go on from a to z.
 */
module TransferStream {

  const TOTAL: nat := 2000000
  const WRITE_SIZE: nat := 1040

  /** The k-th letter of the stream, as a byte. */
  function Letter(k: nat): nat {
    97 + k % 26
  }

  /** The letters run from a to z and start again. */
  lemma AlphabetGoesRound(k: nat)
    ensures 'a' as nat <= Letter(k) <= 'z' as nat && Letter(0) == 'a' as nat
    ensures Letter(k + 1) == if Letter(k) == 'z' as nat then 'a' as nat else Letter(k) + 1
  {
  }

  function Stream(n: nat): seq<nat> {
    seq(n, k requires 0 <= k < n => Letter(k))
  }

  /** What the socket says in one turn of the loop: its free space, and how much of a write it takes. */
  datatype Turn = Turn(space: nat, answer: Answer)

  type Positive = n: nat | n > 0 witness 1

  datatype Answer = Refuses | Takes(amount: Positive)

  datatype Exit = Blocked | Closed

  function Min(a: nat, b: nat): nat {
    if a < b then a else b
  }

  /** A socket takes some of the bytes it is offered, but not more. */
  function Sent(answer: Answer, offered: nat): (n: int)
    requires offered > 0
    ensures answer.Refuses? <==> n < 0
    ensures answer.Takes? ==> 0 < n && n <= offered && n <= answer.amount && (n == offered || n == answer.amount)
  {
    match answer
    case Refuses => -1
    case Takes(n) => Min(n, offered)
  }

  lemma {:induction false} AddRounds(k: nat, rounds: nat)
    ensures (k + 26 * rounds) % 26 == k % 26
    decreases rounds
  {
    if rounds > 0 {
      AddRounds(k, rounds - 1);
      assert k + 26 * rounds == k + 26 * (rounds - 1) + 26;
    }
  }

  /** Fewer windows leave more, by at least a whole one. */
  lemma MoreWindows(width: nat, p: nat, q: nat)
    requires p < q
    ensures p * width + width <= q * width
  {
    assert q * width == p * width + (q - p) * width;
    assert (q - p) * width == width + (q - p - 1) * width;
  }

  lemma SameRest(width: nat, p: nat, r: nat, q: nat, s: nat)
    requires r < width && s < width && p * width + r == q * width + s
    ensures r == s
  {
    if p < q {
      MoreWindows(width, p, q);
    } else if q < p {
      MoreWindows(width, q, p);
    }
  }

  lemma DivideWindow(width: nat, k: nat) returns (q: nat)
    requires width > 0
    ensures k == q * width + k % width
  {
    q := k / width;
  }

  lemma OneWindowLess(width: nat, k: nat)
    requires 0 < width <= k
    ensures (k - width) % width == k % width
  {
    var p := DivideWindow(width, k - width);
    var q := DivideWindow(width, k);
    assert (p + 1) * width == p * width + width;
    SameRest(width, p + 1, (k - width) % width, q, k % width);
  }

  lemma {:induction false} WindowRepeats(width: nat, k: nat)
    requires width > 0 && width % 26 == 0
    ensures k % width % 26 == k % 26
    decreases k
  {
    if k < width {
      FirstRound(width, k);
    } else {
      OneWindowLess(width, k);
      WindowRepeats(width, k - width);
      AddRounds(k - width, width / 26);
    }
  }

  lemma FirstRound(width: nat, k: nat)
    requires k < width
    ensures k % width == k
  {
  }

  /** Reading round a buffer of this width gives the letter the stream has at this place. */
  predicate Fits(width: nat, k: nat)
    requires width > 0
  {
    Letter(k % width) == Letter(k)
  }

  lemma FirstMisfit(width: nat)
    requires width > 0 && width % 26 != 0
    ensures !Fits(width, width)
  {
    assert width % width == 0;
  }

  lemma FirstRoundFits(width: nat, k: nat)
    requires k < width
    ensures Fits(width, k)
  {
    FirstRound(width, k);
  }

  /** A buffer spells the alphabet on exactly when its width is a multiple of 26, or it is never read round. */
  lemma SeamlessIff(width: nat, total: nat)
    requires width > 0
    ensures (forall k: nat :: k < total ==> Fits(width, k)) <==> width % 26 == 0 || total <= width
  {
    if width % 26 == 0 {
      forall k: nat | k < total
        ensures Fits(width, k)
      {
        WindowRepeats(width, k);
      }
    } else if total <= width {
      forall k: nat | k < total
        ensures Fits(width, k)
      {
        FirstRoundFits(width, k);
      }
    } else {
      FirstMisfit(width);
    }
  }

  lemma StreamGrows(n: nat, m: nat)
    ensures Stream(n + m) == Stream(n) + seq(m, k requires 0 <= k < m => Letter(n + k))
  {
  }

  /** The least of three amounts. */
  predicate IsLeast(m: nat, a: nat, b: nat, c: nat) {
    m <= a && m <= b && m <= c && (m == a || m == b || m == c)
  }

  /** What the socket has taken of the first n offers. */
  function TakenOf(socket: nat -> Turn, offers: seq<nat>, n: nat): nat
    requires n <= |offers|
  {
    if n == 0 then 0
    else
      TakenOf(socket, offers, n - 1)
      + TakenOnce(socket(n - 1).answer, offers[n - 1])
  }

  /** Nothing if it refuses, else all it can take of the offer. */
  function TakenOnce(answer: Answer, offer: nat): nat {
    match answer
    case Refuses => 0
    case Takes(amount) => if amount < offer then amount else offer
  }

  /** The rest of the window, the bytes left or the space there is, whichever is least. */
  predicate IsOffer(offer: nat, sent: nat, space: nat) {
    && sent < TOTAL && space > 0
    && IsLeast(offer, WRITE_SIZE - sent % WRITE_SIZE, TOTAL - sent, space)
  }

  /** Each turn offers as much as there is room for. */
  ghost predicate OffersAll(start: nat, socket: nat -> Turn, offers: seq<nat>) {
    forall k :: 0 <= k < |offers| ==> OffersInTurn(start, socket, offers, k)
  }

  ghost predicate OffersInTurn(start: nat, socket: nat -> Turn, offers: seq<nat>, k: nat)
    requires k < |offers|
  {
    IsOffer(offers[k], start + TakenOf(socket, offers, k), socket(k).space)
  }

  lemma {:induction false} TakenOfPrefix(socket: nat -> Turn, offers: seq<nat>, more: seq<nat>, n: nat)
    requires n <= |offers|
    ensures TakenOf(socket, offers + more, n) == TakenOf(socket, offers, n)
  {
    if n > 0 {
      TakenOfPrefix(socket, offers, more, n - 1);
    }
  }

  lemma OneMoreOffer(start: nat, socket: nat -> Turn, offers: seq<nat>, offer: nat)
    requires OffersAll(start, socket, offers)
    requires IsOffer(offer, start + TakenOf(socket, offers, |offers|), socket(|offers|).space)
    ensures OffersAll(start, socket, offers + [offer])
    ensures TakenOf(socket, offers + [offer], |offers|) == TakenOf(socket, offers, |offers|)
  {
    var all := offers + [offer];
    forall k | 0 <= k < |all|
      ensures OffersInTurn(start, socket, all, k)
    {
      TakenOfPrefix(socket, offers, [offer], k);
      if k < |offers| {
        assert OffersInTurn(start, socket, offers, k);
      }
    }
    TakenOfPrefix(socket, offers, [offer], |offers|);
  }

  /** How much to write: never past the end of the buffer, the bytes left or the space there is. */
  method Offer(sent: nat, space: nat) returns (offset: nat, toWrite: nat)
    requires sent < TOTAL && space > 0
    ensures offset == sent % WRITE_SIZE && IsOffer(toWrite, sent, space)
    ensures 0 < toWrite && offset + toWrite <= WRITE_SIZE && toWrite <= TOTAL - sent
  {
    var left := TOTAL - sent;
    offset := sent % WRITE_SIZE;
    toWrite := WRITE_SIZE - offset;
    toWrite := Min(toWrite, left);
    toWrite := Min(toWrite, space);
  }

  class Sender {
    const data: array<nat>
    var currentTxBytes: nat
    ghost var accepted: seq<nat>

    /** The buffer holds letters, and the socket has got the beginning of the stream. */
    ghost predicate Valid()
      reads this, data
    {
      && data.Length == WRITE_SIZE
      && (forall i :: 0 <= i < WRITE_SIZE ==> data[i] == Letter(i))
      && currentTxBytes <= TOTAL
      && accepted == Stream(currentTxBytes)
    }

    constructor ()
      ensures Valid() && currentTxBytes == 0 && accepted == []
    {
      data := new nat[WRITE_SIZE](_ => 0);
      currentTxBytes, accepted := 0, [];
      new;
      for i := 0 to WRITE_SIZE
        invariant data.Length == WRITE_SIZE && fresh(data) && currentTxBytes == 0 && accepted == []
        invariant forall j :: 0 <= j < i ==> data[j] == Letter(j)
      {
        data[i] := 97 + i % 26;
      }
    }

    /** The socket takes the next bytes of the buffer. */
    method Send(offset: nat, toWrite: nat, answer: Answer) returns (amountSent: int)
      requires Valid() && offset == currentTxBytes % WRITE_SIZE && 0 < toWrite && offset + toWrite <= data.Length
      modifies this`accepted
      ensures amountSent == Sent(answer, toWrite)
      ensures amountSent < 0 ==> accepted == old(accepted)
      ensures amountSent >= 0 ==>
        accepted == old(accepted) + data[offset..offset + amountSent] == Stream(currentTxBytes + amountSent)
    {
      amountSent := Sent(answer, toWrite);
      if amountSent >= 0 {
        ghost var bytes, n := data[offset..offset + amountSent], currentTxBytes;
        StreamGrows(currentTxBytes, amountSent);
        forall k | 0 <= k < amountSent
          ensures bytes[k] == Letter(n + k)
        {
          WithinWindow(n, k);
        }
        assert bytes == seq(amountSent, k requires 0 <= k < amountSent => Letter(n + k));
        accepted := accepted + bytes;
      }
    }

    /** One turn of the loop: one offer, and what the socket takes of it. */
    method WriteOnce(turn: Turn) returns (refused: bool, ghost offer: nat)
      requires Valid() && currentTxBytes < TOTAL && turn.space > 0
      modifies this
      ensures Valid() && old(accepted) <= accepted
      ensures IsOffer(offer, old(currentTxBytes), turn.space)
      ensures refused <==> turn.answer.Refuses?
      ensures currentTxBytes == old(currentTxBytes) + TakenOnce(turn.answer, offer)
      ensures !refused ==> currentTxBytes > old(currentTxBytes)
    {
      var dataOffset, toWrite := Offer(currentTxBytes, turn.space);
      offer := toWrite;
      var amountSent := Send(dataOffset, toWrite, turn.answer);
      refused := amountSent < 0;
      if !refused {
        currentTxBytes := currentTxBytes + amountSent;
      }
    }

    /**
     Writes until the socket refuses, has no space or has everything; the stream so far stays a
     beginning of the whole, and no byte is sent twice or left out. Every turn offers as much as it can.
     */
    method WriteUntilBufferFull(socket: nat -> Turn) returns (exit: Exit, turns: nat, ghost offers: seq<nat>)
      requires Valid()
      modifies this
      ensures Valid()
      ensures old(currentTxBytes) <= currentTxBytes && old(accepted) <= accepted
      ensures exit.Closed? <==> currentTxBytes == TOTAL || socket(turns).space == 0
      ensures exit.Blocked? ==> socket(turns).answer.Refuses?
      ensures |offers| == if exit.Blocked? then turns + 1 else turns
      ensures OffersAll(old(currentTxBytes), socket, offers)
      ensures forall k :: 0 <= k < turns ==> socket(k).answer.Takes?
      ensures currentTxBytes == old(currentTxBytes) + TakenOf(socket, offers, turns)
      ensures turns <= currentTxBytes - old(currentTxBytes)
    {
      ghost var start := currentTxBytes;
      turns, offers := 0, [];
      while currentTxBytes < TOTAL && socket(turns).space > 0
        invariant Valid() && old(accepted) <= accepted
        invariant |offers| == turns && OffersAll(start, socket, offers)
        invariant forall k :: 0 <= k < turns ==> socket(k).answer.Takes?
        invariant currentTxBytes == start + TakenOf(socket, offers, turns)
        invariant turns <= currentTxBytes - start
        decreases TOTAL - currentTxBytes
      {
        var refused;
        ghost var offer;
        refused, offer := WriteOnce(socket(turns));
        OneMoreOffer(start, socket, offers, offer);
        offers := offers + [offer];
        if refused {
          return Blocked, turns, offers;
        }
        turns := turns + 1;
      }
      return Closed, turns, offers;
    }
  }

  lemma WithinWindow(n: nat, k: nat)
    requires n % WRITE_SIZE + k < WRITE_SIZE
    ensures Letter(n % WRITE_SIZE + k) == Letter(n + k)
  {
    assert (n + k) % WRITE_SIZE == n % WRITE_SIZE + k;
    WindowRepeats(WRITE_SIZE, n + k);
  }
}

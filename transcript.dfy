/**
 * The transcript updaters that the chat component hands to `setMessages`
 * (components/ChatInterface.tsx): spread-append, patch-by-id through `prev.map`,
 * and the fold that grows the placeholder one streamed chunk at a time.
 */
module Transcript {
  import opened Wrappers
  import opened Types

  /** True when some message of `ms` carries `id`. */
  predicate HasId(ms: seq<Message>, id: MessageId) {
    exists i :: 0 <= i < |ms| && ms[i].id == id
  }

  /** No two messages share an id (the React list keys are distinct). */
  predicate DistinctIds(ms: seq<Message>) {
    forall i, j :: 0 <= i < j < |ms| ==> ms[i].id != ms[j].id
  }

  /** Every clock-derived id in `ms` is a reading taken before `clock`. */
  predicate StampsBelow(ms: seq<Message>, clock: nat) {
    forall i :: 0 <= i < |ms| && ms[i].id.Stamp? ==> ms[i].id.n < clock
  }

  /** The two per-message updates of a turn. */
  datatype Patch =
    | SetText(text: string)   // `{ ...msg, text: fullResponse }`
    | EndStreaming            // `{ ...msg, isStreaming: false }`

  /** The spread update: one field replaced, identity and role kept. */
  function ApplyPatch(m: Message, p: Patch): (r: Message)
    ensures r.id == m.id && r.role == m.role
    ensures r.text == (if p.SetText? then p.text else m.text)
    ensures r.isStreaming == (if p.SetText? then m.isStreaming else Some(false))
  {
    match p
    case SetText(t) => m.(text := t)
    case EndStreaming => m.(isStreaming := Some(false))
  }

  /**
   * `prev.map(msg => msg.id === id ? patched : msg)`: same length, the messages
   * carrying `id` patched, every other message left as it was.
   */
  function PatchById(ms: seq<Message>, id: MessageId, p: Patch): (r: seq<Message>)
    ensures |r| == |ms|
    ensures forall i :: 0 <= i < |ms| ==> r[i] == (if ms[i].id == id then ApplyPatch(ms[i], p) else ms[i])
  {
    if ms == [] then []
    else [if ms[0].id == id then ApplyPatch(ms[0], p) else ms[0]] + PatchById(ms[1..], id, p)
  }

  /** Patching an id that is not in the transcript (after a reset, say) changes nothing. */
  lemma PatchAbsentIsIdentity(ms: seq<Message>, id: MessageId, p: Patch)
    requires !HasId(ms, id)
    ensures PatchById(ms, id, p) == ms
  {
    var r := PatchById(ms, id, p);
    forall i | 0 <= i < |ms| ensures r[i] == ms[i] {
      assert ms[i].id != id;
    }
  }

  /** With distinct ids, patching the id found at `k` updates position `k` only. */
  lemma PatchAt(ms: seq<Message>, k: nat, p: Patch)
    requires DistinctIds(ms) && k < |ms|
    ensures PatchById(ms, ms[k].id, p) == ms[k := ApplyPatch(ms[k], p)]
  {
    var r := PatchById(ms, ms[k].id, p);
    forall i | 0 <= i < |ms| ensures r[i] == ms[k := ApplyPatch(ms[k], p)][i] {
      if i < k { assert ms[i].id != ms[k].id; }
      else if i > k { assert ms[k].id != ms[i].id; }
    }
  }

  /** Patching keeps the id at every position, so it keeps them distinct and keeps the clock bound. */
  lemma PatchKeepsIds(ms: seq<Message>, id: MessageId, p: Patch, clock: nat)
    ensures forall i :: 0 <= i < |ms| ==> PatchById(ms, id, p)[i].id == ms[i].id
    ensures HasId(PatchById(ms, id, p), id) == HasId(ms, id)
    ensures DistinctIds(ms) ==> DistinctIds(PatchById(ms, id, p))
    ensures StampsBelow(ms, clock) ==> StampsBelow(PatchById(ms, id, p), clock)
  {
    var r := PatchById(ms, id, p);
    assert forall i :: 0 <= i < |r| ==> r[i].id == ms[i].id;
    if HasId(ms, id) {
      var i :| 0 <= i < |ms| && ms[i].id == id;
      assert r[i].id == id;
    }
    if HasId(r, id) {
      var i :| 0 <= i < |r| && r[i].id == id;
      assert ms[i].id == id;
    }
    if DistinctIds(ms) {
      forall i, j | 0 <= i < j < |r| ensures r[i].id != r[j].id {
        assert r[i].id == ms[i].id && r[j].id == ms[j].id;
      }
    }
    if StampsBelow(ms, clock) {
      forall i | 0 <= i < |r| && r[i].id.Stamp? ensures r[i].id.n < clock {
        assert r[i].id == ms[i].id;
      }
    }
  }

  /** Replacing a message by one with the same id keeps the ids distinct. */
  lemma UpdateKeepsDistinct(ms: seq<Message>, k: nat, m: Message)
    requires DistinctIds(ms) && k < |ms| && m.id == ms[k].id
    ensures DistinctIds(ms[k := m])
  {
    var r := ms[k := m];
    forall i, j | 0 <= i < j < |r| ensures r[i].id != r[j].id {
      assert r[i].id == ms[i].id && r[j].id == ms[j].id;
    }
  }

  /** A later text patch overwrites an earlier one: only the last write is visible. */
  lemma PatchTextLastWriteWins(ms: seq<Message>, id: MessageId, a: string, b: string)
    ensures PatchById(PatchById(ms, id, SetText(a)), id, SetText(b)) == PatchById(ms, id, SetText(b))
  {
    var r1 := PatchById(ms, id, SetText(a));
    var r2 := PatchById(r1, id, SetText(b));
    var r3 := PatchById(ms, id, SetText(b));
    forall i | 0 <= i < |ms| ensures r2[i] == r3[i] {
      assert r1[i].id == ms[i].id;
    }
  }

  /**
   * `fullResponse`: the left fold of `fullResponse += chunk` over the chunks
   * received so far, starting from the empty string.
   */
  function Concat(chunks: seq<string>): string {
    if chunks == [] then "" else Concat(chunks[..|chunks| - 1]) + chunks[|chunks| - 1]
  }

  /** Accumulating two runs of chunks one after the other is concatenating their accumulations. */
  lemma {:induction false} ConcatAppend(a: seq<string>, b: seq<string>)
    ensures Concat(a + b) == Concat(a) + Concat(b)
  {
    if b == [] {
      assert a + b == a;
    } else {
      var b' := b[..|b| - 1];
      assert (a + b)[..|a + b| - 1] == a + b';
      ConcatAppend(a, b');
    }
  }

  /** Receiving one more chunk appends it to the accumulation. */
  lemma ConcatSnoc(chunks: seq<string>, chunk: string)
    ensures Concat(chunks + [chunk]) == Concat(chunks) + chunk
  {
    assert (chunks + [chunk])[..|chunks|] == chunks;
  }

  /** The accumulation of a non-empty run is its first chunk followed by the accumulation of the rest. */
  lemma ConcatCons(chunks: seq<string>)
    requires chunks != []
    ensures Concat(chunks) == chunks[0] + Concat(chunks[1..])
  {
    assert chunks == [chunks[0]] + chunks[1..];
    ConcatAppend([chunks[0]], chunks[1..]);
    assert Concat([chunks[0]]) == chunks[0] by { assert [chunks[0]][..0] == []; }
  }

  /**
   * The transcript after the chunk callback has run once for each of `chunks`,
   * the accumulator starting at `acc`: each call adds the chunk to the
   * accumulator and writes the whole accumulator into the message `id`.
   */
  function FoldChunks(ms: seq<Message>, id: MessageId, acc: string, chunks: seq<string>): seq<Message>
    decreases |chunks|
  {
    if chunks == [] then ms
    else FoldChunks(PatchById(ms, id, SetText(acc + chunks[0])), id, acc + chunks[0], chunks[1..])
  }

  /** One callback is one patch with the grown accumulator. */
  lemma FoldChunksOne(ms: seq<Message>, id: MessageId, acc: string, chunk: string)
    ensures FoldChunks(ms, id, acc, [chunk]) == PatchById(ms, id, SetText(acc + chunk))
  {
    assert [chunk][1..] == [];
  }

  /** Folding one more chunk of `chunks` is one more patch, with the accumulator grown by that chunk. */
  lemma FoldChunksStep(ms: seq<Message>, id: MessageId, acc: string, chunks: seq<string>, i: nat)
    requires i < |chunks|
    ensures FoldChunks(ms, id, acc, chunks[..i + 1])
         == PatchById(FoldChunks(ms, id, acc, chunks[..i]), id, SetText(acc + Concat(chunks[..i]) + chunks[i]))
    ensures acc + Concat(chunks[..i + 1]) == acc + Concat(chunks[..i]) + chunks[i]
  {
    assert chunks[..i + 1] == chunks[..i] + [chunks[i]];
    FoldChunksSplit(ms, id, acc, chunks[..i], [chunks[i]]);
    FoldChunksOne(FoldChunks(ms, id, acc, chunks[..i]), id, acc + Concat(chunks[..i]), chunks[i]);
    ConcatSnoc(chunks[..i], chunks[i]);
  }

  /**
   * Every prefix of the chunks is an observable intermediate state: folding `a`
   * and then `b` is folding `a + b`, the accumulator having grown by `Concat(a)`.
   */
  lemma {:induction false} FoldChunksSplit(ms: seq<Message>, id: MessageId, acc: string, a: seq<string>, b: seq<string>)
    ensures FoldChunks(ms, id, acc, a + b) == FoldChunks(FoldChunks(ms, id, acc, a), id, acc + Concat(a), b)
    decreases |a|
  {
    if a == [] {
      assert a + b == b;
      assert acc + Concat(a) == acc;
    } else {
      assert (a + b)[0] == a[0] && (a + b)[1..] == a[1..] + b;
      FoldChunksSplit(PatchById(ms, id, SetText(acc + a[0])), id, acc + a[0], a[1..], b);
      ConcatCons(a);
      assert acc + a[0] + Concat(a[1..]) == acc + Concat(a);
    }
  }

  /**
   * When the patched message is at `k` and shows the accumulator, folding the
   * chunks leaves every other message alone and makes message `k` show the
   * accumulator followed by all the chunks, in order.
   */
  lemma {:induction false} FoldChunksAt(ms: seq<Message>, k: nat, acc: string, chunks: seq<string>)
    requires DistinctIds(ms) && k < |ms| && ms[k].text == acc
    ensures FoldChunks(ms, ms[k].id, acc, chunks) == ms[k := ms[k].(text := acc + Concat(chunks))]
    decreases |chunks|
  {
    if chunks == [] {
      assert acc + Concat(chunks) == acc;
      assert ms[k].(text := acc) == ms[k];
    } else {
      FoldChunksAtStep(ms, k, acc, chunks);
      FoldChunksAt(ms[k := ms[k].(text := acc + chunks[0])], k, acc + chunks[0], chunks[1..]);
    }
  }

  /** One step of `FoldChunksAt`: the first chunk is a point update at `k`, and the rest lands where it should. */
  lemma FoldChunksAtStep(ms: seq<Message>, k: nat, acc: string, chunks: seq<string>)
    requires DistinctIds(ms) && k < |ms| && chunks != []
    ensures var ms' := ms[k := ms[k].(text := acc + chunks[0])];
            && FoldChunks(ms, ms[k].id, acc, chunks) == FoldChunks(ms', ms'[k].id, acc + chunks[0], chunks[1..])
            && DistinctIds(ms') && ms'[k].text == acc + chunks[0]
            && ms'[k := ms'[k].(text := acc + chunks[0] + Concat(chunks[1..]))]
               == ms[k := ms[k].(text := acc + Concat(chunks))]
  {
    var acc' := acc + chunks[0];
    var ms' := ms[k := ms[k].(text := acc')];
    TextPatchAt(ms, k, acc');
    assert ms'[k].id == ms[k].id;
    ConcatCons(chunks);
    assert acc' + Concat(chunks[1..]) == acc + Concat(chunks);
    UpdateTwice(ms, k, ms[k].(text := acc'), ms[k].(text := acc + Concat(chunks)));
  }

  /** A text patch at a known position replaces that message's text and keeps the ids distinct. */
  lemma TextPatchAt(ms: seq<Message>, k: nat, text: string)
    requires DistinctIds(ms) && k < |ms|
    ensures PatchById(ms, ms[k].id, SetText(text)) == ms[k := ms[k].(text := text)]
    ensures DistinctIds(ms[k := ms[k].(text := text)])
  {
    PatchAt(ms, k, SetText(text));
    UpdateKeepsDistinct(ms, k, ms[k].(text := text));
  }

  /** Two updates of the same position: the second one wins. */
  lemma UpdateTwice(ms: seq<Message>, k: nat, a: Message, b: Message)
    requires k < |ms|
    ensures ms[k := a][k := b] == ms[k := b]
  {
  }

  /** Chunks delivered for a message that is no longer in the transcript are dropped. */
  lemma {:induction false} FoldChunksAbsent(ms: seq<Message>, id: MessageId, acc: string, chunks: seq<string>)
    requires !HasId(ms, id)
    ensures FoldChunks(ms, id, acc, chunks) == ms
    decreases |chunks|
  {
    if chunks != [] {
      PatchAbsentIsIdentity(ms, id, SetText(acc + chunks[0]));
      FoldChunksAbsent(ms, id, acc + chunks[0], chunks[1..]);
    }
  }
}

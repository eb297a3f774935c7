/** A mounted text document. */
module TextInstance {
  import opened Wrappers
  import opened Orders
  import opened AtomIds
  import opened TextOps
  import opened Fold
  import opened Projection
  import opened Planner
  import opened Normalise
  import opened Assembler
  import opened Minting
  import opened Document
  import opened Runs
  import opened Store
  import opened TextSteps

  /** A destination's authenticated origin and what its sends do, in turn. */
  datatype Destination = Destination(origin: string, sends: seq<Sending>)

  /** One more than the highest counter of the actor's elements, and at least 1. */
  function NextTextCounter(elements: seq<TextElement>, actor: string): (n: int)
    ensures 1 <= n && (n == 1 || exists e :: e in elements && e.id.actor == actor && e.id.counter == n - 1)
    ensures forall e :: e in elements && e.id.actor == actor ==> e.id.counter < n
  {
    if elements == [] then 1
    else
      var rest, e := NextTextCounter(elements[..|elements| - 1], actor), elements[|elements| - 1];
      if e.id.actor == actor && rest <= e.id.counter then e.id.counter + 1 else rest
  }

  /** Every planned insert was given an id. */
  predicate AllNamed(edits: seq<TextEdit>) {
    forall k :: 0 <= k < |edits| && edits[k].InsertAtom? ==> edits[k].atomId != ""
  }

  class Instance {
    const profile: Profile
    const encode: Encoder
    const localOrigin: string
    const store: MemoryInstanceStore<Payload>
    const assembly: TextCrdtAssembler
    /** While a replacement runs, the operations it collects. */
    var textBatch: Option<seq<TextOp>>
    /** The states broadcast so far. */
    var published: seq<TextState>

    ghost predicate Valid()
      reads store, assembly
    {
      && StrictTotal(profile.less)
      && store.Valid() && AllValid(store.ops)
      && assembly.Valid() && assembly.profile == profile
      && SameLog(assembly.history, store.ops)
    }

    constructor (profile: Profile, encode: Encoder, localOrigin: string, store: MemoryInstanceStore<Payload>,
                 assembly: TextCrdtAssembler)
      requires StrictTotal(profile.less) && store.Valid() && AllValid(store.ops)
      requires assembly.Valid() && assembly.profile == profile && SameLog(assembly.history, store.ops)
      ensures Valid() && textBatch == None && published == []
      ensures this.store == store && this.assembly == assembly && this.profile == profile
      ensures this.encode == encode && this.localOrigin == localOrigin
    {
      this.profile, this.encode, this.localOrigin := profile, encode, localOrigin;
      this.store, this.assembly := store, assembly;
      textBatch, published := None, [];
    }

    method TextCrdtState() returns (s: TextState)
      requires Valid()
      modifies assembly
      ensures Valid() && s == AssembleText(profile, store.ops)
    {
      s := assembly.State();
      SameLogSameFold(profile, assembly.history, store.ops);
    }

    /** What a set of operations does outside a batch: the stored log gains those not held, and one
        state is published when any landed. */
    twostate predicate Landed(new ops: seq<TextOp>)
      reads this, store
    {
      Lands(profile, old(store.ops), store.ops, old(published), published, ops)
    }

    /** Operations from a session or a finished batch: validated together, stored unless held, and
        published as one state when anything landed. During a batch they are only collected. */
    method Ingest(ops: seq<TextOp>) returns (r: Result<bool, MountError>)
      requires Valid()
      modifies this, store, assembly
      ensures Valid()
      ensures textBatch == if old(textBatch).Some? then Some(old(textBatch).value + ops) else None
      ensures r.Err? || old(textBatch).Some? ==> store.ops == old(store.ops) && published == old(published)
      ensures r.Ok? <==> old(textBatch).Some? || AllValid(ops)
      ensures r.Ok? ==> r.value == old(textBatch).None?
      ensures r.Err? ==> r == Err(InvalidText)
      ensures old(textBatch).None? && r.Ok? ==> Landed(ops)
    {
      if textBatch.Some? {
        textBatch := Some(textBatch.value + ops);
        return Ok(false);
      }
      var ok := Validates(ops);
      if !ok { return Err(InvalidText); }
      Land(ops);
      return Ok(true);
    }

    method Validates(ops: seq<TextOp>) returns (ok: bool)
      requires Valid()
      modifies assembly
      ensures Valid() && (ok <==> AllValid(ops))
    {
      var s := TextCrdtState();
      ok := assembly.ValidateNew(ops);
    }

    method Land(ops: seq<TextOp>)
      requires Valid() && AllValid(ops)
      modifies this`published, store, assembly
      ensures Valid() && Landed(ops)
    {
      ghost var before := store.ops;
      var delta := StoreNew(ops);
      if delta == [] {
        NothingLands(profile, before, published, ops);
      } else {
        FoldAndBroadcast(before, delta);
        DeltaLands(profile, before, store.ops, old(published), published, ops, delta);
      }
    }

    method StoreNew(ops: seq<TextOp>) returns (delta: seq<TextOp>)
      requires store.Valid() && AllValid(store.ops) && AllValid(ops)
      modifies store
      ensures store.Valid() && AllValid(store.ops) && AllValid(delta) && delta == FreshOf(old(store.ops), ops)
      ensures store.ops == if delta == [] then old(store.ops) else old(store.ops) + delta
    {
      ghost var before := store.ops;
      delta := AppendAll(ops);
      FreshDescribed(before, ops);
      FreshValid(before, delta, ops);
      assert before + [] == before;
    }

    /** One state for a delta just stored. */
    method FoldAndBroadcast(ghost before: seq<TextOp>, delta: seq<TextOp>)
      requires StrictTotal(profile.less) && store.Valid() && AllValid(store.ops) && AllValid(delta)
      requires assembly.Valid() && assembly.profile == profile
      requires store.ops == before + delta && SameLog(assembly.history, before)
      modifies this`published, assembly
      ensures Valid() && published == old(published) + [AssembleText(profile, store.ops)]
    {
      ApplyDelta(before, delta);
      Broadcast();
    }

    method AppendAll(ops: seq<TextOp>) returns (delta: seq<TextOp>)
      requires store.Valid()
      modifies store
      ensures store.Valid()
      ensures delta == FreshOf(old(store.ops), ops) && store.ops == old(store.ops) + delta
    {
      delta := [];
      for i := 0 to |ops|
        invariant store.Valid()
        invariant delta == FreshOf(old(store.ops), ops[..i]) && store.ops == old(store.ops) + delta
      {
        assert ops[..i + 1][..i] == ops[..i];
        KeyConcat(old(store.ops), delta, Key(ops[i]));
        var appended := store.Append(ops[i]);
        if appended { delta := delta + [ops[i]]; }
      }
      assert ops[..|ops|] == ops;
    }

    method ApplyDelta(ghost before: seq<TextOp>, delta: seq<TextOp>)
      requires StrictTotal(profile.less) && store.Valid() && AllValid(store.ops) && AllValid(delta)
      requires assembly.Valid() && assembly.profile == profile
      requires store.ops == before + delta && SameLog(assembly.history, before)
      modifies assembly
      ensures Valid()
    {
      StepTogether(assembly.history, before, delta);
      var applied := assembly.Apply(delta);
    }

    /** One state for everything that landed. */
    method Broadcast()
      requires Valid()
      modifies this`published, assembly
      ensures Valid() && published == old(published) + [AssembleText(profile, store.ops)]
    {
      var s := TextCrdtState();
      published := published + [s];
    }

    /** Validates one operation, then stores and publishes it. */
    method TakeReply(op: TextOp) returns (ok: bool)
      requires Valid()
      modifies this`published, store, assembly
      ensures Valid() && (ok <==> ValidOp(op))
      ensures !ok ==> store.ops == old(store.ops) && published == old(published)
      ensures ok ==> Landed([op])
    {
      EchoesValid([op], op);
      ok := Validates([op]);
      if ok { Land([op]); }
    }

    /** A local write through the editor: mint, store, publish. */
    method Write(payload: Payload) returns (r: Result<TextOp, MountError>)
      requires Valid()
      modifies this`published, store, assembly
      ensures Valid()
      ensures r.Err? ==> store.ops == old(store.ops) && published == old(published)
      ensures DecodeTextEdit(payload).None? ==> r == Err(InvalidText)
      ensures r.Ok?
              ==> payload.EditPayload? && r.value == MintLocal(profile.less, localOrigin, old(store.ops), payload.edit)
      ensures r.Ok? ==> WrittenNext(profile.less, localOrigin, old(store.ops), r.value) && r.value.payload == payload
      ensures r.Ok? ==> Landed([r.value])
    {
      ghost var before := store.ops;
      if DecodeTextEdit(payload).None? { return Err(InvalidText); }
      var refs := SortedHeads(profile.less, Latest(store.ops));
      var op := StoredOp(localOrigin, CountOf(store.ops, localOrigin) + 1, MaxLamport(store.ops) + 1, refs, payload);
      MintedLocally(profile.less, localOrigin, before, payload.edit);
      var ok := TakeReply(op);
      return if ok then Ok(op) else Err(InvalidText);
    }

    /** A write through a destination, whatever it echoes while sending. Nothing changes unless all echoes are
        valid; then they land, and the operation after them unless the send fails or it is invalid. A write that
        fails so leaves everything as it was if and only if no valid echo was new. If the destination echoes
        only the operation itself, one operation lands and one state is published, whether the echo or the
        reply brings it. */
    method WriteThrough(payload: Payload, sending: Sending) returns (r: Result<TextOp, MountError>)
      requires Valid() && textBatch == None
      modifies this, store, assembly
      ensures Valid() && textBatch == None
      ensures DecodeTextEdit(payload).None?
              ==> r == Err(InvalidText) && store.ops == old(store.ops) && published == old(published)
      ensures DecodeTextEdit(payload).Some? && !AllValid(sending.echoed)
              ==> r == Err(InvalidText) && store.ops == old(store.ops) && published == old(published)
      ensures DecodeTextEdit(payload).Some? && AllValid(sending.echoed) && sending.Failed?
              ==> r == Err(SendFailed) && Landed(sending.echoed)
      ensures DecodeTextEdit(payload).Some? && AllValid(sending.echoed) && sending.Sent? ==>
                var op := SentOp(sending, DecodeTextEdit(payload).value);
                && r == (if ValidOp(op) then Ok(op) else Err(InvalidText))
                && (r.Err? ==> Landed(sending.echoed))
                && (r.Ok? ==>
                      LandsAfter(profile, old(store.ops), store.ops, old(published), published, sending.echoed, op))
                && (r.Ok? && (forall x :: x in sending.echoed ==> x == op) ==> Landed([op]))
      ensures DecodeTextEdit(payload).Some? && r.Err?
              ==> (store.ops == old(store.ops) && published == old(published)
                   <==> !AllValid(sending.echoed) || AllHeld(old(store.ops), sending.echoed))
    {
      if DecodeTextEdit(payload).None? { return Err(InvalidText); }
      if sending.Failed? {
        r := EchoThenFail(sending.echoed);
      } else {
        var op := SentOp(sending, DecodeTextEdit(payload).value);
        var ok := EchoThenReply(sending.echoed, op);
        r := if ok then Ok(op) else Err(InvalidText);
      }
      NoneLandsExactly(profile, old(store.ops), store.ops, old(published), published, sending.echoed);
    }

    /** The send throws after its echoes: an invalid echo's own error comes first. */
    method EchoThenFail(echoed: seq<TextOp>) returns (r: Result<TextOp, MountError>)
      requires Valid() && textBatch == None
      modifies this, store, assembly
      ensures Valid() && textBatch == None
      ensures r == Err(if AllValid(echoed) then SendFailed else InvalidText)
      ensures !AllValid(echoed) ==> store.ops == old(store.ops) && published == old(published)
      ensures AllValid(echoed) ==> Landed(echoed)
    {
      var echo := Ingest(echoed);
      return if echo.Err? then Err(InvalidText) else Err(SendFailed);
    }

    method EchoThenReply(echoed: seq<TextOp>, op: TextOp) returns (ok: bool)
      requires Valid() && textBatch == None
      modifies this, store, assembly
      ensures Valid() && textBatch == None && (ok <==> AllValid(echoed) && ValidOp(op))
      ensures !AllValid(echoed) ==> store.ops == old(store.ops) && published == old(published)
      ensures AllValid(echoed) && !ok ==> Landed(echoed)
      ensures ok ==> LandsAfter(profile, old(store.ops), store.ops, old(published), published, echoed, op)
      ensures ok && (forall x :: x in echoed ==> x == op) ==> Landed([op])
    {
      ghost var before := store.ops;
      var echo := Ingest(echoed);
      if echo.Err? { return false; }
      ghost var mid, broadcast := store.ops, published;
      ok := TakeReply(op);
      if !ok { return; }
      LandTwice(profile, before, mid, store.ops, old(published), broadcast, published, echoed, op);
      if forall x :: x in echoed ==> x == op {
        OnceEitherWay(profile, before, mid, store.ops, old(published), broadcast, published, echoed, op);
      }
    }

    /** The plan for `next` over what the editor shows, with ids ranked above everything held. */
    method PlanEdits(next: string, actor: string)
      returns (edits: seq<TextEdit>, ghost shown: TextState, ghost i: nat, ghost j: nat, ghost text: string)
      requires Valid()
      modifies assembly
      ensures Valid() && shown == AssembleText(profile, store.ops)
      ensures Plans(encode, shown, MaxLamport(store.ops), next, actor, i, j, text, edits)
    {
      var state := TextCrdtState();
      shown := state;
      AssembledProper(profile, store.ops);
      edits, i, j, text := PlanFor(encode, state, MaxLamport(store.ops), next, actor);
    }

    /** The purely local loop: every edit is minted from the running sequence, lamport and heads. */
    method MintEdits(edits: seq<TextEdit>)
      requires Valid() && textBatch == Some([])
      modifies this`textBatch
      ensures textBatch == Some(MintBatch(profile.less, localOrigin, store.ops, edits))
      ensures Batches(profile.less, localOrigin, store.ops, edits, textBatch.value)
    {
      var n, lamport, heads := MaxSeq(store.ops, localOrigin) + 1, MaxLamport(store.ops), Latest(store.ops);
      var batch := [];
      for k := 0 to |edits|
        invariant batch + MintRunning(profile.less, localOrigin, n, lamport, heads, edits[k..])
               == MintBatch(profile.less, localOrigin, store.ops, edits)
      {
        var refs := SortedHeads(profile.less, heads);
        var op := StoredOp(localOrigin, n, lamport + 1, refs, EditPayload(edits[k]));
        MintStep(profile.less, localOrigin, n, lamport, heads, edits, k, batch, op);
        batch := batch + [op];
        n, lamport, heads := n + 1, lamport + 1, heads[localOrigin := n];
      }
      assert edits[|edits|..] == [] && batch + [] == batch;
      BatchComesInTurn(profile.less, localOrigin, store.ops, edits);
      textBatch := Some(batch);
    }

    /** The connected loop: the destination mints; whatever it echoes meanwhile joins the batch, the echoes of
        a send that fails included. */
    method SendEdits(dest: Destination, edits: seq<TextEdit>) returns (sent: nat)
      requires Valid() && textBatch == Some([])
      modifies this, store, assembly
      ensures Valid() && sent == Succeeding(dest.sends, |edits|)
      ensures textBatch == Some(Gathered(dest.sends, edits))
      ensures store.ops == old(store.ops) && published == old(published)
    {
      sent := 0;
      while sent < |edits| && sent < |dest.sends| && dest.sends[sent].Sent?
        invariant Valid() && sent <= |edits| && sent <= |dest.sends|
        invariant forall k :: 0 <= k < sent ==> dest.sends[k].Sent?
        invariant textBatch == Some(Collected(dest.sends, edits, sent))
        invariant store.ops == old(store.ops) && published == old(published)
      {
        var echo := Ingest(dest.sends[sent].echoed);
        textBatch := Some(textBatch.value + [SentOp(dest.sends[sent], edits[sent])]);
        sent := sent + 1;
      }
      SucceedingIs(dest.sends, |edits|, sent);
      if sent < |edits| && sent < |dest.sends| { var echo := Ingest(dest.sends[sent].echoed); }
      assert textBatch.value + [] == textBatch.value;
    }

    /** The end of a batch, whether or not it completed: batch mode is left, then what was collected is
        ingested like any other operations. */
    method Finish() returns (r: Result<bool, MountError>)
      requires Valid() && textBatch.Some?
      modifies this, store, assembly
      ensures Valid() && textBatch == None
      ensures r.Ok? <==> AllValid(old(textBatch).value)
      ensures r.Ok? ==> r.value
      ensures r.Err? ==> r == Err(InvalidText)
      ensures r.Err? ==> store.ops == old(store.ops) && published == old(published)
      ensures r.Ok? ==> Landed(old(textBatch).value)
    {
      var batch := textBatch.value;
      textBatch := None;
      if batch == [] { return Ok(true); }
      r := Ingest(batch);
    }

    method RunLocally(edits: seq<TextEdit>) returns (r: Result<bool, MountError>)
      requires Valid()
      modifies this, store, assembly
      ensures Valid() && textBatch == None
      ensures r.Err? ==> r == Err(InvalidText) && store.ops == old(store.ops) && published == old(published)
      ensures r.Ok? <==> AllValid(MintBatch(profile.less, localOrigin, old(store.ops), edits))
      ensures r.Ok? ==> Landed(MintBatch(profile.less, localOrigin, old(store.ops), edits))
      ensures r.Ok? ==> AppendsBatch(profile.less, localOrigin, old(store.ops), store.ops, edits)
    {
      ghost var before := store.ops;
      textBatch := Some([]);
      MintEdits(edits);
      r := Finish();
      BatchLands(profile.less, localOrigin, before, store.ops, r.Ok?, edits);
    }

    method RunThrough(dest: Destination, edits: seq<TextEdit>) returns (r: Result<bool, MountError>)
      requires Valid()
      modifies this, store, assembly
      ensures Valid() && textBatch == None
      ensures r == Err(InvalidText) <==> !AllValid(Gathered(dest.sends, edits))
      ensures r == Err(InvalidText) ==> store.ops == old(store.ops) && published == old(published)
      ensures r != Err(InvalidText)
              ==> r == (if Succeeding(dest.sends, |edits|) < |edits| then Err(SendFailed) else Ok(true))
      ensures r != Err(InvalidText) ==> Landed(Gathered(dest.sends, edits))
    {
      textBatch := Some([]);
      var sent := SendEdits(dest, edits);
      r := Finish();
      if r.Ok? && sent < |edits| { r := Err(SendFailed); }
    }

    /** Replaces the whole text without connectivity. It succeeds exactly when every id can be allocated and
        the local sequence numbers suffice, and otherwise changes nothing; the minted batch lands as one. On a
        sound document the editor then shows exactly the next text, and the document is sound again. */
    method ReplaceText(next: string)
      returns (r: Result<bool, MountError>, edits: seq<TextEdit>, ghost shown: TextState, ghost i: nat, ghost j: nat,
          ghost text: string)
      requires Valid() && textBatch == None
      modifies this, store, assembly
      ensures Valid() && textBatch == None
      ensures shown == AssembleText(profile, old(store.ops))
      ensures Plans(encode, shown, MaxLamport(old(store.ops)), next, localOrigin, i, j, text, edits)
      ensures r.Err? ==> store.ops == old(store.ops) && published == old(published)
      ensures r == Err(AllocationFailed) <==> !CanAllocate(shown, MaxLamport(old(store.ops)), localOrigin, |text|)
      ensures r.Ok? <==> CanAllocate(shown, MaxLamport(old(store.ops)), localOrigin, |text|)
                         && CanNumber(old(store.ops), localOrigin, |edits|)
      ensures r.Ok? || r == Err(AllocationFailed) || r == Err(InvalidText)
      ensures r.Ok? ==> Landed(MintBatch(profile.less, localOrigin, old(store.ops), edits))
      ensures r.Ok? ==> AppendsBatch(profile.less, localOrigin, old(store.ops), store.ops, edits)
      ensures r.Ok? && Sound(profile, encode, old(store.ops))
              ==> Sound(profile, encode, store.ops) && AssembleText(profile, store.ops).text == next
    {
      ghost var before := store.ops;
      edits, shown, i, j, text := PlanEdits(next, localOrigin);
      PlansNamed(encode, shown, MaxLamport(before), next, localOrigin, i, j, text, edits);
      if !AllNamed(edits) { r := Err(AllocationFailed); return; }
      PlansProper(profile, encode, before, shown, next, localOrigin, i, j, text, edits);
      BatchValid(profile.less, localOrigin, before, edits);
      r := RunLocally(edits);
      if r.Ok? && Sound(profile, encode, before) {
        LocalReplacement(profile, encode, localOrigin, before, store.ops, next, shown, i, j, text, edits);
      }
    }

    /** Replaces the whole text through a destination. If a send fails, what was sent before it and what it
        had echoed itself still land, and batch mode is left. When the destination's successful sends echo only
        what was sent, exactly the operations sent land, once and in order, if and only if their identities are
        new and distinct and the failing send echoed nothing else. If they also follow what a sound document
        holds and all were sent, the editor shows exactly the next text. */
    method ReplaceTextThrough(next: string, dest: Destination)
      returns (r: Result<bool, MountError>, edits: seq<TextEdit>, ghost k: nat, ghost shown: TextState, ghost i: nat,
          ghost j: nat, ghost text: string)
      requires Valid() && textBatch == None
      modifies this, store, assembly
      ensures Valid() && textBatch == None
      ensures shown == AssembleText(profile, old(store.ops)) && k == Succeeding(dest.sends, |edits|)
      ensures Plans(encode, shown, MaxLamport(old(store.ops)), next, dest.origin, i, j, text, edits)
      ensures r == Err(AllocationFailed) <==> !CanAllocate(shown, MaxLamport(old(store.ops)), dest.origin, |text|)
      ensures r == Err(AllocationFailed) || r == Err(InvalidText)
              ==> store.ops == old(store.ops) && published == old(published)
      ensures r == Err(InvalidText) <==> r != Err(AllocationFailed) && !AllValid(Gathered(dest.sends, edits))
      ensures OnlyEchoes(dest.sends, edits, k) && r != Err(AllocationFailed) ==>
                (r == Err(InvalidText) <==> !AllNumbered(dest.sends, k) || !AllValid(Aftermath(dest.sends, |edits|)))
      ensures r.Ok? ==> k == |edits|
      ensures r == Err(SendFailed) ==> k < |edits|
      ensures r.Ok? || r == Err(SendFailed) ==> Landed(Gathered(dest.sends, edits))
      ensures (r.Ok? || r == Err(SendFailed)) && OnlyEchoes(dest.sends, edits, k)
              ==> LandsSent(old(store.ops), store.ops, SentOps(dest.sends, edits, k), Aftermath(dest.sends, |edits|))
      ensures r.Ok? && Sound(profile, encode, old(store.ops)) && WellBehaved(dest, old(store.ops), edits, k)
              ==> Sound(profile, encode, store.ops) && AssembleText(profile, store.ops).text == next
    {
      ghost var before := store.ops;
      edits, shown, i, j, text := PlanEdits(next, dest.origin);
      assert store.ops == before && published == old(published);
      k := Succeeding(dest.sends, |edits|);
      PlansNamed(encode, shown, MaxLamport(before), next, dest.origin, i, j, text, edits);
      if !AllNamed(edits) { r := Err(AllocationFailed); return; }
      PlansProper(profile, encode, before, shown, next, dest.origin, i, j, text, edits);
      r := RunThrough(dest, edits);
      ThroughLands(dest, before, store.ops, r != Err(InvalidText), edits, k);
      if r.Ok? && Sound(profile, encode, before) && WellBehaved(dest, before, edits, k) {
        ConnectedReplacement(profile, encode, dest, before, store.ops, next, shown, i, j, text, edits, k);
      }
    }
  }

  method PlanFor(encode: Encoder, state: TextState, highest: int, next: string, actor: string)
    returns (edits: seq<TextEdit>, ghost i: nat, ghost j: nat, ghost text: string)
    requires NonEmpty(state.visible) && state.text == Joined(state.visible)
    ensures Plans(encode, state, highest, next, actor, i, j, text, edits)
  {
    edits, i, j, text := PlanTextReplacement(state, next,
        Allocator(encode, actor, NextTextCounter(state.elements, actor), highest + 1));
  }

  // ---- replacing the text -----------------------------------------------------------------

  /** `edits` are the plan for `next` over what is shown, with ids for `actor` from its next counter and
      from ranks above `highest`. */
  ghost predicate Plans(encode: Encoder, shown: TextState, highest: int, next: string, actor: string,
                        i: nat, j: nat, text: string, edits: seq<TextEdit>)
  {
    && IsPlan(shown.visible, next, i, j, text)
    && edits == PlannedEdits(shown.visible, i, j, text,
        Allocator(encode, actor, NextTextCounter(shown.elements, actor), highest + 1))
    && (next == shown.text ==> edits == [])
  }

  /** The actor's next counters and the ranks above `highest` suffice for `n` ids. */
  predicate CanAllocate(shown: TextState, highest: int, actor: string, n: nat) {
    Allocatable(actor, NextTextCounter(shown.elements, actor), highest + 1, n)
  }

  /** What a destination sent, and what its failing send echoed, lands as far as it is new: exactly what was
      sent if and only if that is all new and distinct and the echoes are of what is then held. */
  ghost predicate LandsSent(before: seq<TextOp>, after: seq<TextOp>, sent: seq<TextOp>, echoed: seq<TextOp>) {
    && after == before + FreshOf(before, sent + echoed)
    && (after == before + sent <==> UniqueKeys(before + sent) && AllHeld(before + sent, echoed))
  }

  /** The destination's operations follow what is held, and it echoes only what it sent. */
  ghost predicate WellBehaved(dest: Destination, ops: seq<TextOp>, edits: seq<TextEdit>, k: nat)
    requires k <= |dest.sends| && k <= |edits| && forall i :: 0 <= i < k ==> dest.sends[i].Sent?
  {
    OnlyEchoes(dest.sends, edits, k) && FollowsAll(ops, SentOps(dest.sends, edits, k))
  }

  lemma PlansNamed(encode: Encoder, shown: TextState, highest: int, next: string, actor: string,
                   i: nat, j: nat, text: string, edits: seq<TextEdit>)
    requires 0 <= highest && Plans(encode, shown, highest, next, actor, i, j, text, edits)
    ensures AllNamed(edits) <==> CanAllocate(shown, highest, actor, |text|)
  {
    NamedIffAllocatable(shown.visible, i, j, text, encode, actor, NextTextCounter(shown.elements, actor), highest + 1);
  }

  lemma ComposedNamed(rank: string, actor: string, counter: nat)
    ensures Compose(rank, actor, counter) != ""
  {
    assert |":"| == 1;
  }

  lemma AllocatorNamed(encode: Encoder, actor: string, counter: int, order: int, k: nat)
    ensures Allocator(encode, actor, counter, order)(k) != ""
            <==> actor != "" && PositiveSafe(counter + k) && PositiveSafe(order + k)
  {
    if actor != "" && PositiveSafe(counter + k) && PositiveSafe(order + k) {
      var id := Compose(RankText(order + k), encode(actor), counter + k);
      assert TextAtomId(encode, ElementId(actor, counter + k), order + k) == Ok(id);
      ComposedNamed(RankText(order + k), encode(actor), counter + k);
      assert Allocator(encode, actor, counter, order)(k) == id;
    } else {
      assert TextAtomId(encode, ElementId(actor, counter + k), order + k).Err?;
      assert Allocator(encode, actor, counter, order)(k) == "";
    }
  }

  lemma PlannedInsert(visible: seq<TextElement>, i: nat, j: nat, text: string, allocate: nat -> string, k: nat)
    requires i <= j <= |visible| && k < j - i + |text|
    ensures var e := PlannedEdits(visible, i, j, text, allocate)[k];
            if k < j - i then e.DeleteAtom? else e.InsertAtom? && e.atomId == allocate(k - (j - i))
  {
    var edits := PlannedEdits(visible, i, j, text, allocate);
    if k < j - i {
      assert edits[k] == Deletions(visible[i..j])[k];
    } else {
      assert edits[k] == Chain(AnchorOf(visible, i), text, Allocated(allocate, |text|))[k - (j - i)];
    }
  }

  /** Every planned insert got an id exactly when no allocation throws. */
  lemma NamedIffAllocatable(visible: seq<TextElement>, i: nat, j: nat, text: string, encode: Encoder, actor: string,
                            counter: int, order: int)
    requires i <= j <= |visible| && 1 <= counter && 1 <= order
    ensures AllNamed(PlannedEdits(visible, i, j, text, Allocator(encode, actor, counter, order)))
            <==> Allocatable(actor, counter, order, |text|)
  {
    var n, d := |text|, j - i;
    var edits := PlannedEdits(visible, i, j, text, Allocator(encode, actor, counter, order));
    if n > 0 {
      PlannedInsert(visible, i, j, text, Allocator(encode, actor, counter, order), d);
      PlannedInsert(visible, i, j, text, Allocator(encode, actor, counter, order), d + n - 1);
      AllocatorNamed(encode, actor, counter, order, 0);
      AllocatorNamed(encode, actor, counter, order, n - 1);
    }
    if Allocatable(actor, counter, order, n) {
      forall k | 0 <= k < |edits| && edits[k].InsertAtom? ensures edits[k].atomId != "" {
        PlannedInsert(visible, i, j, text, Allocator(encode, actor, counter, order), k);
        AllocatorNamed(encode, actor, counter, order, k - d);
      }
    }
  }

  // ---- which batches are valid ------------------------------------------------------------------------------

  /** The origin's next `n` sequence numbers stay within the safe integers. */
  predicate CanNumber(ops: seq<TextOp>, origin: string, n: nat) {
    n == 0 || MaxSeq(ops, origin) + n <= MAX_SAFE
  }

  predicate AllProper(edits: seq<TextEdit>) {
    forall k :: 0 <= k < |edits| ==> ProperEdit(edits[k])
  }

  predicate HeadsSafe(heads: HeadMap) {
    forall o :: o in heads ==> 0 <= heads[o] <= MAX_SAFE
  }

  lemma PlannedProper(visible: seq<TextElement>, i: nat, j: nat, text: string, allocate: nat -> string, k: nat)
    requires i <= j <= |visible| && k < j - i + |text| && forall e :: e in visible ==> e.atomId != ""
    requires k < |PlannedEdits(visible, i, j, text, allocate)|
    ensures var e := PlannedEdits(visible, i, j, text, allocate)[k];
            (e.InsertAtom? && e.atomId == "") || ProperEdit(e)
  {
    var edits := PlannedEdits(visible, i, j, text, allocate);
    if k < j - i {
      assert edits[k] == Deletions(visible[i..j])[k];
      assert visible[i + k] in visible;
    } else {
      assert edits[k] == Chain(AnchorOf(visible, i), text, Allocated(allocate, |text|))[k - (j - i)];
    }
  }

  /** What a plan over held text deletes is named, and what it inserts is a character. */
  lemma PlansProper(profile: Profile, encode: Encoder, ops: seq<TextOp>, shown: TextState, next: string, actor: string,
                    i: nat, j: nat, text: string, edits: seq<TextEdit>)
    requires AllValid(ops) && UniqueKeys(ops) && shown == AssembleText(profile, ops)
    requires Plans(encode, shown, MaxLamport(ops), next, actor, i, j, text, edits) && AllNamed(edits)
    ensures AllProper(edits)
  {
    AssembledProper(profile, ops);
    forall k | 0 <= k < |edits| ensures ProperEdit(edits[k]) {
      PlannedProper(shown.visible, i, j, text,
                    Allocator(encode, actor, NextTextCounter(shown.elements, actor), MaxLamport(ops) + 1), k);
    }
  }

  lemma LatestSafe(ops: seq<TextOp>)
    requires AllValid(ops)
    ensures HeadsSafe(Latest(ops))
  {
    forall o | o in Latest(ops) ensures 0 <= Latest(ops)[o] <= MAX_SAFE {
      LatestHeld(ops, o);
      KeyHeldValid(ops, o, Latest(ops)[o]);
    }
  }

  lemma MintedValid(less: (string, string) -> bool, origin: string, n: int, lamport: int, heads: HeadMap,
                    edit: TextEdit)
    requires StrictTotal(less) && 0 <= n && HeadsSafe(heads) && ProperEdit(edit)
    ensures ValidOp(StoredOp(origin, n, lamport, HeadsOf(less, heads), EditPayload(edit))) <==> n <= MAX_SAFE
  {
    var refs, origins := HeadsOf(less, heads), Listing(heads.Keys, less);
    forall i | 0 <= i < |refs| ensures 0 <= refs[i].seqNo <= MAX_SAFE {
      assert origins[i] in Elements(origins);
      assert refs[i] == Head(origins[i], heads[origins[i]]);
    }
  }

  lemma ValidFirst(op: TextOp, rest: seq<TextOp>)
    ensures AllValid([op] + rest) <==> ValidOp(op) && AllValid(rest)
  {
    var all := [op] + rest;
    assert all[0] == op;
    if AllValid(all) {
      forall i | 0 <= i < |rest| ensures ValidOp(rest[i]) { assert ValidOp(all[i + 1]); }
    }
  }

  lemma {:induction false} RunningValid(less: (string, string) -> bool, origin: string, n: int, lamport: int,
                                        heads: HeadMap, edits: seq<TextEdit>)
    requires StrictTotal(less) && 0 <= n && HeadsSafe(heads) && AllProper(edits)
    ensures AllValid(MintRunning(less, origin, n, lamport, heads, edits))
            <==> edits == [] || n + |edits| - 1 <= MAX_SAFE
    decreases |edits|
  {
    if edits != [] {
      var op := StoredOp(origin, n, lamport + 1, HeadsOf(less, heads), EditPayload(edits[0]));
      MintedValid(less, origin, n, lamport + 1, heads, edits[0]);
      ValidFirst(op, MintRunning(less, origin, n + 1, lamport + 1, heads[origin := n], edits[1..]));
      if n <= MAX_SAFE { RunningValid(less, origin, n + 1, lamport + 1, heads[origin := n], edits[1..]); }
    }
  }

  /** A minted batch of proper edits is valid exactly when the local sequence numbers suffice. */
  lemma BatchValid(less: (string, string) -> bool, origin: string, ops: seq<TextOp>, edits: seq<TextEdit>)
    requires StrictTotal(less) && AllValid(ops) && AllProper(edits)
    ensures AllValid(MintBatch(less, origin, ops, edits)) <==> CanNumber(ops, origin, |edits|)
  {
    MaxWithin(ops, origin);
    LatestSafe(ops);
    RunningValid(less, origin, MaxSeq(ops, origin) + 1, MaxLamport(ops), Latest(ops), edits);
  }

  /** The destination's sequence numbers and references are safe integers. */
  predicate Numbered(s: Sending) {
    s.Sent? && 0 <= s.seqNo <= MAX_SAFE && forall i :: 0 <= i < |s.refs| ==> 0 <= s.refs[i].seqNo <= MAX_SAFE
  }

  predicate AllNumbered(sends: seq<Sending>, k: nat)
    requires k <= |sends|
  {
    forall i :: 0 <= i < k ==> Numbered(sends[i])
  }

  lemma SentValid(s: Sending, edit: TextEdit)
    requires s.Sent? && ProperEdit(edit)
    ensures ValidOp(SentOp(s, edit)) <==> Numbered(s)
  {
  }

  lemma {:induction false} CollectedIsSent(sends: seq<Sending>, edits: seq<TextEdit>, k: nat, x: TextOp)
    requires k <= |sends| && k <= |edits| && (forall i :: 0 <= i < k ==> sends[i].Sent?) && OnlyEchoes(sends, edits, k)
    ensures x in Collected(sends, edits, k) <==> x in SentOps(sends, edits, k)
    decreases k
  {
    if k > 0 {
      CollectedIsSent(sends, edits, k - 1, x);
      var echo, sent, prior := sends[k - 1].echoed, SentOps(sends, edits, k), SentOps(sends, edits, k - 1);
      assert sent == prior + [SentOp(sends[k - 1], edits[k - 1])];
      if x in echo {
        var j :| 0 <= j < |echo| && echo[j] == x;
        assert sends[k - 1].echoed[j] in sent;
      }
    }
  }

  /** With no foreign echoes what is collected is valid exactly when every send is numbered safely. */
  lemma CollectedValid(sends: seq<Sending>, edits: seq<TextEdit>, k: nat)
    requires k <= |sends| && k <= |edits| && (forall i :: 0 <= i < k ==> sends[i].Sent?) && OnlyEchoes(sends, edits, k)
    requires AllProper(edits)
    ensures AllValid(Collected(sends, edits, k)) <==> AllNumbered(sends, k)
  {
    var collected, sent := Collected(sends, edits, k), SentOps(sends, edits, k);
    forall i | 0 <= i < k ensures ValidOp(sent[i]) <==> Numbered(sends[i]) { SentValid(sends[i], edits[i]); }
    if AllNumbered(sends, k) {
      forall m | 0 <= m < |collected| ensures ValidOp(collected[m]) { CollectedIsSent(sends, edits, k, collected[m]); }
    }
    if AllValid(collected) {
      forall i | 0 <= i < k ensures Numbered(sends[i]) {
        CollectedIsSent(sends, edits, k, sent[i]);
        var m :| 0 <= m < |collected| && collected[m] == sent[i];
        assert ValidOp(collected[m]);
      }
    }
  }

  /** The log gains a batch for the edits, whole and in order. */
  ghost predicate AppendsBatch(less: (string, string) -> bool, origin: string, before: seq<TextOp>,
                               after: seq<TextOp>, edits: seq<TextEdit>)
  {
    exists batch: seq<TextOp> :: Batches(less, origin, before, edits, batch) && after == before + batch
  }

  lemma BatchLands(less: (string, string) -> bool, origin: string, ops: seq<TextOp>, after: seq<TextOp>, ok: bool,
                   edits: seq<TextEdit>)
    requires StrictTotal(less) && AllValid(ops) && UniqueKeys(ops)
    requires ok ==> AllValid(MintBatch(less, origin, ops, edits))
                    && after == ops + FreshOf(ops, MintBatch(less, origin, ops, edits))
    ensures ok ==> AppendsBatch(less, origin, ops, after, edits)
  {
    if ok { BatchAppended(less, origin, ops, after, edits); }
  }

  lemma BatchAppended(less: (string, string) -> bool, origin: string, ops: seq<TextOp>, after: seq<TextOp>,
                      edits: seq<TextEdit>)
    requires StrictTotal(less) && AllValid(ops) && UniqueKeys(ops) && AllValid(MintBatch(less, origin, ops, edits))
    requires after == ops + FreshOf(ops, MintBatch(less, origin, ops, edits))
    ensures after == ops + MintBatch(less, origin, ops, edits) && AppendsBatch(less, origin, ops, after, edits)
  {
    var batch := MintBatch(less, origin, ops, edits);
    BatchFollows(less, origin, ops, edits);
    FollowersUnique(ops, batch, ops + batch);
    FreshIsFresh(ops, batch);
    BatchComesInTurn(less, origin, ops, edits);
  }

  lemma MintIssues(less: (string, string) -> bool, origin: string, ops: seq<TextOp>, edits: seq<TextEdit>)
    requires StrictTotal(less)
    ensures Issues(MintBatch(less, origin, ops, edits), edits)
  {
    BatchComesInTurn(less, origin, ops, edits);
  }

  /** A purely local replacement: its batch lands whole, reads the next text and keeps the document sound. */
  lemma LocalReplacement(profile: Profile, encode: Encoder, origin: string, ops: seq<TextOp>, after: seq<TextOp>,
                         next: string,
                         shown: TextState, i: nat, j: nat, text: string, edits: seq<TextEdit>)
    requires StrictTotal(profile.less) && Sound(profile, encode, ops) && shown == AssembleText(profile, ops)
    requires Plans(encode, shown, MaxLamport(ops), next, origin, i, j, text, edits)
    requires CanAllocate(shown, MaxLamport(ops), origin, |text|)
    requires AllValid(MintBatch(profile.less, origin, ops, edits))
    requires after == ops + FreshOf(ops, MintBatch(profile.less, origin, ops, edits))
    ensures after == ops + MintBatch(profile.less, origin, ops, edits)
    ensures Sound(profile, encode, after) && AssembleText(profile, after).text == next
  {
    var batch := MintBatch(profile.less, origin, ops, edits);
    BatchFollows(profile.less, origin, ops, edits);
    BatchAppended(profile.less, origin, ops, after, edits);
    MintIssues(profile.less, origin, ops, edits);
    IssuedReads(profile, encode, ops, batch, next, shown, origin, i, j, text, edits);
  }

  lemma IssuedReads(profile: Profile, encode: Encoder, ops: seq<TextOp>, more: seq<TextOp>, next: string,
                    shown: TextState, actor: string, i: nat, j: nat, text: string, edits: seq<TextEdit>)
    requires StrictTotal(profile.less) && Sound(profile, encode, ops) && shown == AssembleText(profile, ops)
    requires Plans(encode, shown, MaxLamport(ops), next, actor, i, j, text, edits)
    requires CanAllocate(shown, MaxLamport(ops), actor, |text|)
    requires FollowsAll(ops, more) && Issues(more, edits)
    ensures Sound(profile, encode, ops + more) && AssembleText(profile, ops + more).text == next
  {
    ReplacementReads(profile, encode, ops, more, next, i, j, text, actor, NextTextCounter(shown.elements, actor));
  }

  /** A replacement through a destination whose sends follow what is held, echo only what was sent and do not
      fail: exactly the operations sent land, and the document reads the next text. */
  lemma ConnectedReplacement(profile: Profile, encode: Encoder, dest: Destination, ops: seq<TextOp>,
                             after: seq<TextOp>, next: string,
                             shown: TextState, i: nat, j: nat, text: string, edits: seq<TextEdit>, k: nat)
    requires StrictTotal(profile.less) && Sound(profile, encode, ops) && shown == AssembleText(profile, ops)
    requires Plans(encode, shown, MaxLamport(ops), next, dest.origin, i, j, text, edits)
    requires CanAllocate(shown, MaxLamport(ops), dest.origin, |text|)
    requires k == Succeeding(dest.sends, |edits|) && WellBehaved(dest, ops, edits, k)
    requires k == |edits| && after == ops + FreshOf(ops, Gathered(dest.sends, edits))
    ensures after == ops + SentOps(dest.sends, edits, k)
    ensures Sound(profile, encode, after) && AssembleText(profile, after).text == next
  {
    var sent := SentOps(dest.sends, edits, k);
    FollowersUnique(ops, sent, ops + sent);
    EchoesAddNothing(ops, dest.sends, edits, k);
    assert Collected(dest.sends, edits, k) + [] == Gathered(dest.sends, edits) == Collected(dest.sends, edits, k);
    FreshIsFresh(ops, sent);
    SentIssues(dest.sends, edits);
    IssuedReads(profile, encode, ops, sent, next, shown, dest.origin, i, j, text, edits);
  }

  lemma SentIssues(sends: seq<Sending>, edits: seq<TextEdit>)
    requires |edits| <= |sends| && forall i :: 0 <= i < |edits| ==> sends[i].Sent?
    ensures Issues(SentOps(sends, edits, |edits|), edits)
  {
  }

  /** A batch sent to a destination whose successful sends echo only what was sent. */
  lemma ThroughLands(dest: Destination, before: seq<TextOp>, after: seq<TextOp>, valid: bool, edits: seq<TextEdit>,
                     k: nat)
    requires UniqueKeys(before) && AllProper(edits) && k == Succeeding(dest.sends, |edits|)
    requires valid <==> AllValid(Gathered(dest.sends, edits))
    requires valid ==> after == before + FreshOf(before, Gathered(dest.sends, edits))
    ensures OnlyEchoes(dest.sends, edits, k)
            ==> (valid <==> AllNumbered(dest.sends, k) && AllValid(Aftermath(dest.sends, |edits|)))
    ensures valid && OnlyEchoes(dest.sends, edits, k)
            ==> LandsSent(before, after, SentOps(dest.sends, edits, k), Aftermath(dest.sends, |edits|))
  {
    var echoed := Aftermath(dest.sends, |edits|);
    ValidConcat(Collected(dest.sends, edits, k), echoed);
    if OnlyEchoes(dest.sends, edits, k) {
      CollectedValid(dest.sends, edits, k);
      GatheredLands(dest.sends, before, edits, k, echoed);
    }
  }

  lemma ValidConcat(a: seq<TextOp>, b: seq<TextOp>)
    ensures AllValid(a + b) <==> AllValid(a) && AllValid(b)
  {
    if AllValid(a + b) {
      forall i | 0 <= i < |a| ensures ValidOp(a[i]) { assert ValidOp((a + b)[i]); }
      forall i | 0 <= i < |b| ensures ValidOp(b[i]) { assert ValidOp((a + b)[|a| + i]); }
    }
  }

  /** What is gathered adds what was sent and echoed at the end, as far as it is not held. */
  lemma GatheredLands(sends: seq<Sending>, ops: seq<TextOp>, edits: seq<TextEdit>, k: nat, echoed: seq<TextOp>)
    requires UniqueKeys(ops) && k <= |sends| && k <= |edits| && forall i :: 0 <= i < k ==> sends[i].Sent?
    requires OnlyEchoes(sends, edits, k)
    ensures LandsSent(ops, ops + FreshOf(ops, Collected(sends, edits, k) + echoed), SentOps(sends, edits, k), echoed)
  {
    var sent := SentOps(sends, edits, k);
    EchoesAddNothing(ops, sends, edits, k);
    FreshAppend(ops, Collected(sends, edits, k), echoed);
    FreshAppend(ops, sent, echoed);
    ExactlyFirst(ops, sent, echoed);
  }

  /** A failed send that echoed `echoed` leaves the log and what was published alone exactly when none is new. */
  lemma NoneLandsExactly(profile: Profile, before: seq<TextOp>, after: seq<TextOp>, was: seq<TextState>,
                         now: seq<TextState>, echoed: seq<TextOp>)
    ensures Lands(profile, before, after, was, now, echoed)
            ==> (after == before && now == was <==> AllHeld(before, echoed))
  {
    FreshNoneExactly(before, echoed);
    if FreshOf(before, echoed) == [] { assert before + [] == before && was + [] == was; }
  }

  /** The send that mints `op`. */
  function SendingOf(op: TextOp): Sending { Sent([], op.origin, op.seqNo, op.lamport, op.refs) }

  /** A destination that answers the first `k` sends with the operations of `batch`, and echoes the next one
      before it fails. */
  function Script(batch: seq<TextOp>, k: nat): (r: seq<Sending>)
    requires k < |batch|
    ensures |r| == k + 1 && r[k] == Failed([batch[k]]) && forall i :: 0 <= i < k ==> r[i] == SendingOf(batch[i])
  {
    seq(k, i requires 0 <= i < k => SendingOf(batch[i])) + [Failed([batch[k]])]
  }

  /** One operation more than was sent can land: on any log and for any edits, a destination that publishes each
      operation before it answers, and fails after publishing the one after the first `k`, leaves `k + 1`. */
  lemma OneMoreLands(less: (string, string) -> bool, origin: string, ops: seq<TextOp>, edits: seq<TextEdit>, k: nat)
    returns (dest: Destination)
    requires StrictTotal(less) && AllValid(ops) && UniqueKeys(ops) && AllProper(edits)
    requires CanNumber(ops, origin, |edits|) && k < |edits|
    ensures dest.origin == origin && Succeeding(dest.sends, |edits|) == k && OnlyEchoes(dest.sends, edits, k)
    ensures |MintBatch(less, origin, ops, edits)| == |edits|
    ensures SentOps(dest.sends, edits, k) == MintBatch(less, origin, ops, edits)[..k]
    ensures AllValid(Gathered(dest.sends, edits))
    ensures FreshOf(ops, Gathered(dest.sends, edits)) == MintBatch(less, origin, ops, edits)[..k + 1]
  {
    var batch := MintBatch(less, origin, ops, edits);
    BatchValid(less, origin, ops, edits);
    BatchFollows(less, origin, ops, edits);
    FollowersUnique(ops, batch, ops + batch);
    MintIssues(less, origin, ops, edits);
    dest := Destination(origin, Script(batch, k));
    SucceedingIs(dest.sends, |edits|, k);
    ScriptSends(batch, edits, k);
    ScriptGathers(batch, edits, k);
    assert batch == batch[..k + 1] + batch[k + 1..];
    ValidConcat(batch[..k + 1], batch[k + 1..]);
    PrefixNew(ops, batch, k + 1);
    FreshIsFresh(ops, batch[..k + 1]);
  }

  lemma PrefixNew(ops: seq<TextOp>, batch: seq<TextOp>, n: nat)
    requires UniqueKeys(ops + batch) && n <= |batch|
    ensures UniqueKeys(ops + batch[..n])
  {
    var all, part := ops + batch, ops + batch[..n];
    forall i, j | 0 <= i < j < |part| ensures Key(part[i]) != Key(part[j]) {
      assert part[i] == all[i] && part[j] == all[j];
    }
  }

  lemma ScriptSends(batch: seq<TextOp>, edits: seq<TextEdit>, k: nat)
    requires k < |batch| && Issues(batch, edits)
    ensures SentOps(Script(batch, k), edits, k) == batch[..k]
  {
    forall i | 0 <= i < k ensures SentOp(Script(batch, k)[i], edits[i]) == batch[i] {
      assert batch[i].payload == EditPayload(edits[i]);
    }
  }

  lemma ScriptGathers(batch: seq<TextOp>, edits: seq<TextEdit>, k: nat)
    requires k < |batch| && Issues(batch, edits) && Succeeding(Script(batch, k), |edits|) == k
    ensures Gathered(Script(batch, k), edits) == batch[..k + 1]
  {
    ScriptCollects(batch, edits, k, k);
    assert batch[..k + 1] == batch[..k] + [batch[k]];
  }

  lemma {:induction false} ScriptCollects(batch: seq<TextOp>, edits: seq<TextEdit>, k: nat, n: nat)
    requires k < |batch| && Issues(batch, edits) && n <= k
    ensures Collected(Script(batch, k), edits, n) == batch[..n]
    decreases n
  {
    if n > 0 {
      ScriptCollects(batch, edits, k, n - 1);
      assert batch[n - 1].payload == EditPayload(edits[n - 1]);
      assert batch[..n] == batch[..n - 1] + [] + [batch[n - 1]];
    }
  }

  lemma MintStep(less: (string, string) -> bool, origin: string, n: int, lamport: int, heads: HeadMap,
                 edits: seq<TextEdit>,
                 k: nat, batch: seq<TextOp>, op: TextOp)
    requires StrictTotal(less) && k < |edits|
    requires op == StoredOp(origin, n, lamport + 1, HeadsOf(less, heads), EditPayload(edits[k]))
    ensures batch + MintRunning(less, origin, n, lamport, heads, edits[k..])
         == (batch + [op]) + MintRunning(less, origin, n + 1, lamport + 1, heads[origin := n], edits[k + 1..])
  {
    assert edits[k..][1..] == edits[k + 1..];
  }

  lemma {:induction false} SucceedingIs(sends: seq<Sending>, n: nat, k: nat)
    requires k <= n && k <= |sends| && forall i :: 0 <= i < k ==> sends[i].Sent?
    requires k == n || k == |sends| || sends[k].Failed?
    ensures Succeeding(sends, n) == k
    decreases k
  {
    if k > 0 { SucceedingIs(sends[1..], n - 1, k - 1); }
  }

  /** What landing leaves behind. */
  ghost predicate Lands(profile: Profile, before: seq<TextOp>, after: seq<TextOp>, was: seq<TextState>,
                        now: seq<TextState>, ops: seq<TextOp>) {
    && after == before + FreshOf(before, ops) && AllValid(after)
    && now == was + (if FreshOf(before, ops) == [] then [] else [AssembleText(profile, after)])
  }

  lemma NothingLands(profile: Profile, ops: seq<TextOp>, was: seq<TextState>, none: seq<TextOp>)
    requires AllValid(ops) && FreshOf(ops, none) == []
    ensures Lands(profile, ops, ops, was, was, none)
  {
    assert ops + [] == ops && was + [] == was;
  }

  lemma DeltaLands(profile: Profile, before: seq<TextOp>, after: seq<TextOp>, was: seq<TextState>, now: seq<TextState>,
                   ops: seq<TextOp>, delta: seq<TextOp>)
    requires delta == FreshOf(before, ops) && delta != [] && after == before + delta && AllValid(after)
    requires now == was + [AssembleText(profile, after)]
    ensures Lands(profile, before, after, was, now, ops)
  {
  }

  /** What is published when the log goes from `before` to `after`. */
  ghost function Fanned(profile: Profile, before: seq<TextOp>, after: seq<TextOp>): seq<TextState>
    requires AllValid(after)
  {
    if after == before then [] else [AssembleText(profile, after)]
  }

  /** What is left behind by echoes that land and then the operation itself. */
  ghost predicate LandsAfter(profile: Profile, before: seq<TextOp>, after: seq<TextOp>, was: seq<TextState>,
                             now: seq<TextState>,
                             echoed: seq<TextOp>, op: TextOp)
  {
    var mid := before + FreshOf(before, echoed);
    && after == before + FreshOf(before, echoed + [op]) && AllValid(mid) && AllValid(after)
    && now == was + Fanned(profile, before, mid) + Fanned(profile, mid, after)
  }

  lemma LandTwice(profile: Profile, before: seq<TextOp>, mid: seq<TextOp>, after: seq<TextOp>,
                  was: seq<TextState>, broadcast: seq<TextState>, now: seq<TextState>, echoed: seq<TextOp>, op: TextOp)
    requires Lands(profile, before, mid, was, broadcast, echoed) && Lands(profile, mid, after, broadcast, now, [op])
    ensures LandsAfter(profile, before, after, was, now, echoed, op)
  {
    TwiceFresh(before, mid, after, echoed, op);
    LandsFans(profile, before, mid, was, broadcast, echoed);
    LandsFans(profile, mid, after, broadcast, now, [op]);
  }

  lemma TwiceFresh(before: seq<TextOp>, mid: seq<TextOp>, after: seq<TextOp>, echoed: seq<TextOp>, op: TextOp)
    requires mid == before + FreshOf(before, echoed) && after == mid + FreshOf(mid, [op])
    ensures after == before + FreshOf(before, echoed + [op])
  {
    FreshAppend(before, echoed, [op]);
    assert before + (FreshOf(before, echoed) + FreshOf(mid, [op])) == after;
  }

  lemma LandsFans(profile: Profile, before: seq<TextOp>, after: seq<TextOp>, was: seq<TextState>, now: seq<TextState>,
                  ops: seq<TextOp>)
    requires Lands(profile, before, after, was, now, ops)
    ensures now == was + Fanned(profile, before, after)
  {
    assert FreshOf(before, ops) == [] <==> after == before;
  }

  lemma OnceEitherWay(profile: Profile, before: seq<TextOp>, mid: seq<TextOp>, after: seq<TextOp>,
                      was: seq<TextState>, broadcast: seq<TextState>, now: seq<TextState>, echoed: seq<TextOp>,
                      op: TextOp)
    requires forall x :: x in echoed ==> x == op
    requires Lands(profile, before, mid, was, broadcast, echoed) && Lands(profile, mid, after, broadcast, now, [op])
    ensures Lands(profile, before, after, was, now, [op])
  {
    EchoOrReply(before, echoed, op);
    if echoed == [] {
      assert mid == before && broadcast == was;
    } else {
      assert after == mid && now == broadcast;
    }
  }

  lemma EchoesValid(echoed: seq<TextOp>, op: TextOp)
    requires forall x :: x in echoed ==> x == op
    ensures AllValid(echoed) <==> echoed == [] || ValidOp(op)
    ensures AllValid([op]) <==> ValidOp(op)
  {
    if echoed != [] {
      assert echoed[0] in echoed && ValidOp(echoed[0]) == ValidOp(op);
    }
    forall i | 0 <= i < |echoed| ensures ValidOp(echoed[i]) == ValidOp(op) { assert echoed[i] in echoed; }
    assert [op][0] == op;
  }

  lemma EchoOrReply(h: seq<TextOp>, echoed: seq<TextOp>, op: TextOp)
    requires forall x :: x in echoed ==> x == op
    ensures FreshOf(h, echoed) == (if echoed == [] then [] else FreshOf(h, [op]))
    ensures FreshOf(h + FreshOf(h, echoed), [op]) == (if echoed == [] then FreshOf(h, [op]) else [])
  {
    EchoedOnce(h, echoed, op);
    assert h + [] == h;
    if echoed != [] {
      assert echoed[0] in echoed;
      FreshHas(h, [op], Key(op));
      assert HasKey([op], Key(op)) by { assert [op][0] == op; }
      FreshNone(h + FreshOf(h, [op]), [op]);
    }
  }

  /** `heads.values()` as the map iterates them: in some order, each once. */
  method OriginsOf(heads: HeadMap) returns (origins: seq<string>)
    ensures NoDuplicates(origins) && Elements(origins) == heads.Keys
  {
    origins := [];
    var todo := heads.Keys;
    while todo != {}
      invariant todo <= heads.Keys && NoDuplicates(origins)
      invariant forall o :: o in origins <==> o in heads && o !in todo
    {
      var o :| o in todo;
      todo := todo - {o};
      origins := origins + [o];
    }
  }

  lemma SortedListing(origins: seq<string>, keys: set<string>, less: (string, string) -> bool)
    requires StrictTotal(less) && NoDuplicates(origins) && Elements(origins) == keys
    ensures Sort(origins, less) == Listing(keys, less)
  {
    DistinctComparable(origins, less);
    SortUnique(origins, Listing(keys, less), less);
  }

  method SortedHeads(less: (string, string) -> bool, heads: HeadMap) returns (refs: seq<Head>)
    requires StrictTotal(less)
    ensures refs == HeadsOf(less, heads)
  {
    var origins := OriginsOf(heads);
    SortedListing(origins, heads.Keys, less);
    origins := Sort(origins, less);
    refs := [];
    for i := 0 to |origins|
      invariant refs == HeadsOf(less, heads)[..i]
    {
      assert origins[i] in Elements(origins);
      refs := refs + [Head(origins[i], heads[origins[i]])];
    }
  }
}

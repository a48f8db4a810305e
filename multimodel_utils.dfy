/** `extract_final_text`: the assistant's final text out of a conversation
    response, whose outputs hold chunks, with a three-tier fallback. */
module MultimodelUtils {
  import opened Wrappers
  import opened Strings

  const MessageOutput := "message.output"

  /** A content chunk; `text` is `None` when the chunk has no `text` attribute. */
  datatype Chunk = Chunk(text: Option<string>)

  /** One response output; `kind` is its `type` attribute and `content` its
      chunks, each `None` when the attribute is missing. */
  datatype Output = Output(kind: Option<string>, content: Option<seq<Chunk>>)

  predicate IsMessageOutput(o: Output) {
    o.kind == Some(MessageOutput)
  }

  /** `"".join(ss)`. */
  function Concat(ss: seq<string>): (r: string)
    ensures ss == [] ==> r == ""
    decreases |ss|
  {
    if ss == [] then "" else Concat(ss[..|ss| - 1]) + ss[|ss| - 1]
  }

  /** The texts of the chunks that have one, in chunk order. */
  function Texts(chunks: seq<Chunk>): (r: seq<string>)
    ensures |r| <= |chunks|
    decreases |chunks|
  {
    if chunks == [] then []
    else
      var init := Texts(chunks[..|chunks| - 1]);
      var last := chunks[|chunks| - 1];
      if last.text.Some? then init + [last.text.value] else init
  }

  /** `"".join(chunk.text for chunk in chunks if hasattr(chunk, "text"))`. */
  function JoinText(chunks: seq<Chunk>): string {
    Concat(Texts(chunks))
  }

  /** The chunks of every output that has content, output by output. */
  function Flatten(outputs: seq<Output>): seq<Chunk>
    decreases |outputs|
  {
    if outputs == [] then []
    else
      var last := outputs[|outputs| - 1];
      Flatten(outputs[..|outputs| - 1]) + (if last.content.Some? then last.content.value else [])
  }

  /** The position of the first `"message.output"` output, if any. */
  function FirstMessageIndex(outputs: seq<Output>): (r: Option<nat>)
    ensures r.None? <==> forall k :: 0 <= k < |outputs| ==> !IsMessageOutput(outputs[k])
    ensures r.Some? ==> r.value < |outputs| && IsMessageOutput(outputs[r.value])
    ensures r.Some? ==> forall k :: 0 <= k < r.value ==> !IsMessageOutput(outputs[k])
    decreases |outputs|
  {
    if outputs == [] then None
    else if IsMessageOutput(outputs[0]) then Some(0)
    else match FirstMessageIndex(outputs[1..])
      case None => None
      case Some(i) => Some(i + 1)
  }

  /** The first message output is read as `o.content` with no guard, so it
      must have content. */
  predicate Extractable(outputs: seq<Output>) {
    match FirstMessageIndex(outputs)
    case Some(i) => outputs[i].content.Some?
    case None => true
  }

  /** The three tiers: the first message output's text as it is; else the
      text of a lone output with content, as it is; else every text of every
      output with content, joined and stripped. */
  function FinalText(outputs: seq<Output>): string
    requires Extractable(outputs)
  {
    match FirstMessageIndex(outputs)
    case Some(i) => JoinText(outputs[i].content.value)
    case None =>
      if |outputs| == 1 && outputs[0].content.Some? then JoinText(outputs[0].content.value)
      else Strip(JoinText(Flatten(outputs)))
  }

  /** `extract_final_text(response)` for `response.outputs == outputs`: a
      search loop for tier 1, then tier 2, then the collecting loop of tier 3. */
  method ExtractFinalText(outputs: seq<Output>) returns (r: string)
    requires Extractable(outputs)
    ensures r == FinalText(outputs)
  {
    var i := 0;
    while i < |outputs|
      invariant 0 <= i <= |outputs|
      invariant forall k :: 0 <= k < i ==> !IsMessageOutput(outputs[k])
    {
      if outputs[i].kind == Some(MessageOutput) {
        r := JoinText(outputs[i].content.value);
        return;
      }
      i := i + 1;
    }
    if |outputs| == 1 {
      var o := outputs[0];
      if o.content.Some? {
        r := JoinText(o.content.value);
        return;
      }
    }
    var collected := CollectTexts(outputs);
    r := Strip(Concat(collected));
  }

  /** The loops of tier 3: the texts of every chunk of every output with
      content, in order. */
  method CollectTexts(outputs: seq<Output>) returns (collected: seq<string>)
    ensures collected == Texts(Flatten(outputs))
  {
    collected := [];
    var i := 0;
    while i < |outputs|
      invariant 0 <= i <= |outputs|
      invariant collected == Texts(Flatten(outputs[..i]))
    {
      var o := outputs[i];
      FlattenStep(outputs, i);
      if o.content.Some? {
        TextsAppend(Flatten(outputs[..i]), o.content.value);
        collected := AppendTexts(collected, o.content.value);
      } else {
        assert Flatten(outputs[..i]) + [] == Flatten(outputs[..i]);
      }
      i := i + 1;
    }
    assert outputs[..i] == outputs;
  }

  /** The inner loop of tier 3 over the chunks of one output. */
  method AppendTexts(collected: seq<string>, chunks: seq<Chunk>) returns (r: seq<string>)
    ensures r == collected + Texts(chunks)
  {
    r := collected;
    var j := 0;
    while j < |chunks|
      invariant 0 <= j <= |chunks|
      invariant r == collected + Texts(chunks[..j])
    {
      assert chunks[..j + 1][..j] == chunks[..j];
      if chunks[j].text.Some? {
        r := r + [chunks[j].text.value];
      }
      j := j + 1;
    }
    assert chunks[..j] == chunks;
  }

  lemma FlattenStep(outputs: seq<Output>, i: nat)
    requires i < |outputs|
    ensures Flatten(outputs[..i + 1]) == Flatten(outputs[..i]) +
      (if outputs[i].content.Some? then outputs[i].content.value else [])
  {
    assert outputs[..i + 1][..i] == outputs[..i];
  }

  lemma {:induction false} ConcatAppend(a: seq<string>, b: seq<string>)
    ensures Concat(a + b) == Concat(a) + Concat(b)
    decreases |b|
  {
    if b == [] {
      assert a + b == a;
    } else {
      assert (a + b)[..|a + b| - 1] == a + b[..|b| - 1];
      ConcatAppend(a, b[..|b| - 1]);
    }
  }

  lemma {:induction false} TextsAppend(a: seq<Chunk>, b: seq<Chunk>)
    ensures Texts(a + b) == Texts(a) + Texts(b)
    decreases |b|
  {
    if b == [] {
      assert a + b == a;
    } else {
      assert (a + b)[..|a + b| - 1] == a + b[..|b| - 1];
      TextsAppend(a, b[..|b| - 1]);
    }
  }

  /** Joining is a homomorphism: the text of two runs of chunks is the text
      of the first followed by the text of the second. */
  lemma JoinTextAppend(a: seq<Chunk>, b: seq<Chunk>)
    ensures JoinText(a + b) == JoinText(a) + JoinText(b)
  {
    TextsAppend(a, b);
    ConcatAppend(Texts(a), Texts(b));
  }

  /** A chunk without text adds nothing, wherever it sits. */
  lemma TextlessChunkSkipped(a: seq<Chunk>, b: seq<Chunk>)
    ensures JoinText(a + [Chunk(None)] + b) == JoinText(a + b)
  {
    JoinTextAppend(a + [Chunk(None)], b);
    JoinTextAppend(a, [Chunk(None)]);
    JoinTextAppend(a, b);
    assert Texts([Chunk(None)]) == [];
  }

  /** A chunk with text adds exactly that text at its place. */
  lemma TextChunkKept(a: seq<Chunk>, t: string, b: seq<Chunk>)
    ensures JoinText(a + [Chunk(Some(t))] + b) == JoinText(a) + t + JoinText(b)
  {
    JoinTextAppend(a + [Chunk(Some(t))], b);
    JoinTextAppend(a, [Chunk(Some(t))]);
    assert Texts([Chunk(Some(t))]) == [t];
    assert Concat([t]) == Concat([]) + t;
  }

  lemma {:induction false} FlattenAppend(a: seq<Output>, b: seq<Output>)
    ensures Flatten(a + b) == Flatten(a) + Flatten(b)
    decreases |b|
  {
    if b == [] {
      assert a + b == a;
    } else {
      assert (a + b)[..|a + b| - 1] == a + b[..|b| - 1];
      FlattenAppend(a, b[..|b| - 1]);
    }
  }

  /** An output without content adds no chunk to the fallback scan. */
  lemma ContentlessOutputSkipped(a: seq<Output>, kind: Option<string>, b: seq<Output>)
    ensures Flatten(a + [Output(kind, None)] + b) == Flatten(a + b)
  {
    FlattenAppend(a + [Output(kind, None)], b);
    FlattenAppend(a, [Output(kind, None)]);
    FlattenAppend(a, b);
    assert Flatten([Output(kind, None)]) == [];
  }

  /** Tier 1: with a message output present, the result is the text of the
      first one, neither stripped nor influenced by any other output. */
  lemma FirstMessageWins(before: seq<Output>, o: Output, after: seq<Output>)
    requires forall k :: 0 <= k < |before| ==> !IsMessageOutput(before[k])
    requires IsMessageOutput(o) && o.content.Some?
    ensures Extractable(before + [o] + after)
    ensures FinalText(before + [o] + after) == JoinText(o.content.value)
  {
    FirstIndexAt(before, o, after);
  }

  lemma FirstIndexAt(before: seq<Output>, o: Output, after: seq<Output>)
    requires forall k :: 0 <= k < |before| ==> !IsMessageOutput(before[k])
    requires IsMessageOutput(o)
    ensures FirstMessageIndex(before + [o] + after) == Some(|before|)
  {
    var outputs := before + [o] + after;
    assert outputs[|before|] == o;
    assert forall k :: 0 <= k < |before| ==> outputs[k] == before[k];
  }

  lemma {:induction false} FirstIndexExtends(outputs: seq<Output>, more: seq<Output>)
    requires FirstMessageIndex(outputs).Some?
    ensures FirstMessageIndex(outputs + more) == FirstMessageIndex(outputs)
    decreases |outputs|
  {
    if !IsMessageOutput(outputs[0]) {
      assert (outputs + more)[1..] == outputs[1..] + more;
      FirstIndexExtends(outputs[1..], more);
    }
  }

  /** Outputs after a message output never change the result. */
  lemma LaterOutputsIgnored(outputs: seq<Output>, more: seq<Output>)
    requires Extractable(outputs) && FirstMessageIndex(outputs).Some?
    ensures Extractable(outputs + more)
    ensures FinalText(outputs + more) == FinalText(outputs)
  {
    FirstIndexExtends(outputs, more);
    var i := FirstMessageIndex(outputs).value;
    assert (outputs + more)[i] == outputs[i];
  }

  /** Tier 2: a lone output with content, not a message output, gives its
      text unstripped. */
  lemma LoneOutputText(o: Output)
    requires !IsMessageOutput(o) && o.content.Some?
    ensures Extractable([o]) && FinalText([o]) == JoinText(o.content.value)
  {
    assert [o][0] == o;
  }

  /** Tier 3: otherwise every text of every output with content, in order,
      joined and stripped. */
  lemma ScanTier(outputs: seq<Output>)
    requires forall k :: 0 <= k < |outputs| ==> !IsMessageOutput(outputs[k])
    requires |outputs| != 1 || outputs[0].content.None?
    ensures Extractable(outputs)
    ensures FinalText(outputs) == Strip(JoinText(Flatten(outputs)))
    ensures IsStripped(FinalText(outputs))
  {
  }

  /** No outputs at all yields the empty string. */
  lemma NoOutputs()
    ensures Extractable([]) && FinalText([]) == ""
  {
    assert Flatten([]) == [];
    assert Texts([]) == [];
  }

  /** Tier 1 keeps surrounding whitespace ... */
  lemma MessageTextUnstripped(t: string, o: Output)
    requires t == " hi " && o == Output(Some(MessageOutput), Some([Chunk(Some(t))]))
    ensures Extractable([o]) && FinalText([o]) == t
  {
    TextChunkKept([], t, []);
    assert [] + [Chunk(Some(t))] + [] == [Chunk(Some(t))];
    FirstMessageWins([], o, []);
    assert [] + [o] + [] == [o];
  }

  /** ... while tier 3 strips it. */
  lemma ScannedTextStripped(t: string, empty: Output, o: Output)
    requires t == " hi " && empty == Output(None, None) && o == Output(None, Some([Chunk(Some(t))]))
    ensures Extractable([empty, o]) && FinalText([empty, o]) == "hi"
  {
    ScanTier([empty, o]);
    ScannedChunks(t, empty, o);
    StripSpaces(t);
  }

  lemma ScannedChunks(t: string, empty: Output, o: Output)
    requires empty == Output(None, None) && o == Output(None, Some([Chunk(Some(t))]))
    ensures JoinText(Flatten([empty, o])) == t
  {
    var c := [Chunk(Some(t))];
    ContentlessOutputSkipped([], None, [o]);
    assert [] + [empty] + [o] == [empty, o];
    assert [] + [o] == [o];
    assert Flatten([o]) == Flatten([]) + c;
    TextChunkKept([], t, []);
    assert [] + c + [] == c;
  }

  lemma StripSpaces(t: string)
    requires t == " hi "
    ensures Strip(t) == "hi"
  {
    assert t == " " + "hi" + " ";
    StripAround(" ", "hi", " ");
  }
}

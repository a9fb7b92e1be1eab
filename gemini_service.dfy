/**
 * The answer service's streaming entry point: it turns the upstream
 * response chunks into `textChunk` items and one final item carrying the
 * grounding sources, deduplicated by uri.
 */
module GeminiService {
  import opened Base
  import opened JsMaps

  /** A grounding chunk's `web` part; a missing `uri` or `title` is the empty string. */
  datatype Web = Web(uri: string, title: string)

  /** One entry of `groundingMetadata.groundingChunks`. */
  datatype GroundingChunk = GroundingChunk(web: Option<Web>)

  /**
   * One upstream chunk: its `text` ("" when absent) and the grounding
   * chunks of its first candidate ([] when any level of that path is absent).
   */
  datatype ResponseChunk = ResponseChunk(text: string, grounding: seq<GroundingChunk>)

  /** Whether the upstream sequence runs out normally or raises after its chunks. */
  datatype Ending = Completed | Failed

  /**
   * The upstream response: a finite sequence of chunks and how it ends.
   * A failure of the request itself is `Upstream([], Failed)`.
   */
  datatype Upstream = Upstream(chunks: seq<ResponseChunk>, ending: Ending)

  /** `StreamedChatResponse`: `{ textChunk, isFinal: false }` or `{ sources, isFinal: true }`. */
  datatype StreamItem = TextChunk(text: string) | Final(sources: seq<Source>)

  /** What the generator yields, and the message of the error it throws, if it throws. */
  datatype Response = Response(items: seq<StreamItem>, error: Option<string>)

  const ApiKeyMissing := "API_KEY environment variable is not set."
  const ServiceUnavailable := "Неуспешно свързване с AI услугата."

  /** A grounding chunk contributes a source when it has a `web` part with a non-empty uri. */
  predicate Usable(g: GroundingChunk)
  {
    g.web.Some? && g.web.value.uri != ""
  }

  /** `g` is usable and cites `u`. */
  predicate Cites(g: GroundingChunk, u: string)
  {
    Usable(g) && g.web.value.uri == u
  }

  /** The source recorded for a web reference: its title, or its uri when the title is empty. */
  function SourceOf(w: Web): (s: Source)
    ensures s.uri == w.uri
    ensures s.title == (if w.title != "" then w.title else w.uri)
  {
    Source(w.uri, if w.title != "" then w.title else w.uri)
  }

  /** One step of the `forEach`: record `g` unless it is unusable or its uri is known. */
  function Gather(m: JsMap<Source>, g: GroundingChunk): (r: JsMap<Source>)
    requires m.Valid()
    ensures r.Valid()
  {
    if Usable(g) && !m.Has(g.web.value.uri) then Set(m, g.web.value.uri, SourceOf(g.web.value))
    else m
  }

  /** The map `uniqueSources` after all of `gs` went through `Gather`, in order. */
  function GatherAll(gs: seq<GroundingChunk>): (r: JsMap<Source>)
    ensures r.Valid()
  {
    if gs == [] then Empty() else Gather(GatherAll(gs[..|gs| - 1]), gs[|gs| - 1])
  }

  /** All grounding chunks of `chunks`, in arrival order. */
  function Grounding(chunks: seq<ResponseChunk>): seq<GroundingChunk>
  {
    if chunks == [] then []
    else Grounding(chunks[..|chunks| - 1]) + chunks[|chunks| - 1].grounding
  }

  /** The final item's sources: `Array.from(uniqueSources.values())`. */
  function UniqueSources(chunks: seq<ResponseChunk>): seq<Source>
  {
    Values(GatherAll(Grounding(chunks)))
  }

  /** The `textChunk` items yielded for `chunks`: one per chunk whose text is non-empty. */
  function TextItems(chunks: seq<ResponseChunk>): seq<StreamItem>
  {
    if chunks == [] then []
    else
      var last := chunks[|chunks| - 1];
      TextItems(chunks[..|chunks| - 1]) + (if last.text != "" then [TextChunk(last.text)] else [])
  }

  /** The concatenated text of all upstream chunks. */
  function AllText(chunks: seq<ResponseChunk>): string
  {
    if chunks == [] then "" else AllText(chunks[..|chunks| - 1]) + chunks[|chunks| - 1].text
  }

  /** The number of upstream chunks with non-empty text. */
  function TextCount(chunks: seq<ResponseChunk>): nat
  {
    if chunks == [] then 0
    else TextCount(chunks[..|chunks| - 1]) + (if chunks[|chunks| - 1].text != "" then 1 else 0)
  }

  /**
   * What `getChatResponseStream` produces: nothing and the key error when
   * the API key is missing; the text items and the fixed service error when
   * the upstream fails; the text items and one final item otherwise.
   */
  function Expected(apiKey: string, upstream: Upstream): Response
  {
    if apiKey == "" then Response([], Some(ApiKeyMissing))
    else if upstream.ending == Failed then Response(TextItems(upstream.chunks), Some(ServiceUnavailable))
    else Response(TextItems(upstream.chunks) + [Final(UniqueSources(upstream.chunks))], None)
  }

  /** The index of the first grounding chunk citing `u`, or `|gs|` if none does. */
  function FirstCite(gs: seq<GroundingChunk>, u: string): (k: nat)
    ensures k <= |gs|
    ensures forall j :: 0 <= j < k ==> !Cites(gs[j], u)
    ensures k < |gs| ==> Cites(gs[k], u)
  {
    if gs == [] then 0 else if Cites(gs[0], u) then 0 else 1 + FirstCite(gs[1..], u)
  }

  /** Appending a chunk does not move the first citation of a uri already cited. */
  lemma {:induction false} FirstCiteSnoc(gs: seq<GroundingChunk>, g: GroundingChunk, u: string)
    ensures FirstCite(gs + [g], u) ==
      if FirstCite(gs, u) < |gs| then FirstCite(gs, u)
      else if Cites(g, u) then |gs| else |gs| + 1
  {
    assert forall j :: 0 <= j < |gs| ==> (gs + [g])[j] == gs[j];
    assert (gs + [g])[|gs|] == g;
  }

  /** A uri is recorded exactly when some grounding chunk cites it. */
  lemma {:induction false} GatheredKeys(gs: seq<GroundingChunk>)
    ensures forall u :: u in GatherAll(gs).entries <==> exists k :: 0 <= k < |gs| && Cites(gs[k], u)
  {
    if gs != [] {
      var init, g := gs[..|gs| - 1], gs[|gs| - 1];
      GatheredKeys(init);
      var m0, m := GatherAll(init), GatherAll(gs);
      forall u ensures u in m.entries <==> exists k :: 0 <= k < |gs| && Cites(gs[k], u) {
        if u in m.entries && u !in m0.entries {
          assert Cites(gs[|init|], u);
        }
        if u in m0.entries {
          var k :| 0 <= k < |init| && Cites(init[k], u);
          assert gs[k] == init[k];
        }
        if exists k :: 0 <= k < |gs| && Cites(gs[k], u) {
          var k :| 0 <= k < |gs| && Cites(gs[k], u);
          if k < |init| {
            assert init[k] == gs[k];
          }
        }
      }
    }
  }

  /** Each recorded uri holds the source of the FIRST grounding chunk that cites it. */
  lemma {:induction false} GatheredFirst(gs: seq<GroundingChunk>)
    ensures var m := GatherAll(gs);
      forall u :: u in m.entries ==>
        FirstCite(gs, u) < |gs| && m.entries[u] == SourceOf(gs[FirstCite(gs, u)].web.value)
  {
    if gs != [] {
      var init, g := gs[..|gs| - 1], gs[|gs| - 1];
      assert gs == init + [g];
      GatheredFirst(init);
      GatheredKeys(init);
      var m0, m := GatherAll(init), GatherAll(gs);
      forall u | u in m.entries
        ensures FirstCite(gs, u) < |gs| && m.entries[u] == SourceOf(gs[FirstCite(gs, u)].web.value)
      {
        FirstCiteSnoc(init, g, u);
        if u in m0.entries {
          assert gs[FirstCite(init, u)] == init[FirstCite(init, u)];
        } else {
          assert FirstCite(init, u) == |init|;
        }
      }
    }
  }

  /** The recorded uris are listed in the order of their first citation. */
  lemma {:induction false} GatheredOrder(gs: seq<GroundingChunk>)
    ensures var m := GatherAll(gs);
      forall i, j :: 0 <= i < j < |m.keys| ==> FirstCite(gs, m.keys[i]) < FirstCite(gs, m.keys[j])
  {
    if gs != [] {
      var init, g := gs[..|gs| - 1], gs[|gs| - 1];
      assert gs == init + [g];
      GatheredOrder(init);
      GatheredFirst(init);
      GatheredKeys(init);
      var m0, m := GatherAll(init), GatherAll(gs);
      forall i, j | 0 <= i < j < |m.keys|
        ensures FirstCite(gs, m.keys[i]) < FirstCite(gs, m.keys[j])
      {
        assert m.keys[i] == m0.keys[i] && m.keys[i] in m0.entries;
        FirstCiteSnoc(init, g, m.keys[i]);
        FirstCiteSnoc(init, g, m.keys[j]);
        if j < |m0.keys| {
          assert m.keys[j] == m0.keys[j];
        } else {
          assert m.keys[j] !in m0.entries;
          assert FirstCite(init, m.keys[j]) == |init|;
        }
      }
    }
  }

  /**
   * The final item's sources are pairwise distinct by uri; each is the
   * source of the first chunk citing its uri; they come in first-citation
   * order; and every usable grounding chunk's uri is among them.
   */
  lemma {:induction false} UniqueSourcesFacts(chunks: seq<ResponseChunk>)
    ensures var gs, r := Grounding(chunks), UniqueSources(chunks);
      && (forall i, j :: 0 <= i < j < |r| ==> r[i].uri != r[j].uri)
      && (forall i :: 0 <= i < |r| ==>
            FirstCite(gs, r[i].uri) < |gs| && r[i] == SourceOf(gs[FirstCite(gs, r[i].uri)].web.value))
      && (forall i, j :: 0 <= i < j < |r| ==> FirstCite(gs, r[i].uri) < FirstCite(gs, r[j].uri))
      && (forall k :: 0 <= k < |gs| && Usable(gs[k]) ==>
            exists i :: 0 <= i < |r| && r[i].uri == gs[k].web.value.uri)
  {
    UniqueSourcesShape(chunks);
    UniqueSourcesComplete(chunks);
  }

  /** The final item's sources are the map's values: one per key, the key as uri. */
  lemma UniqueSourcesKeys(chunks: seq<ResponseChunk>)
    ensures var m, r := GatherAll(Grounding(chunks)), UniqueSources(chunks);
      |r| == |m.keys| && forall i :: 0 <= i < |r| ==> m.keys[i] in m.entries && r[i].uri == m.keys[i]
  {
    var m, r := GatherAll(Grounding(chunks)), UniqueSources(chunks);
    GatheredFirst(Grounding(chunks));
    forall i | 0 <= i < |r| ensures m.keys[i] in m.entries && r[i].uri == m.keys[i] {
      assert m.keys[i] in m.keys;
    }
  }

  /** The distinctness, first-citation and order parts of `UniqueSourcesFacts`. */
  lemma UniqueSourcesShape(chunks: seq<ResponseChunk>)
    ensures var gs, r := Grounding(chunks), UniqueSources(chunks);
      && (forall i, j :: 0 <= i < j < |r| ==> r[i].uri != r[j].uri)
      && (forall i :: 0 <= i < |r| ==>
            FirstCite(gs, r[i].uri) < |gs| && r[i] == SourceOf(gs[FirstCite(gs, r[i].uri)].web.value))
      && (forall i, j :: 0 <= i < j < |r| ==> FirstCite(gs, r[i].uri) < FirstCite(gs, r[j].uri))
  {
    var gs := Grounding(chunks);
    GatheredFirst(gs);
    GatheredOrder(gs);
    UniqueSourcesKeys(chunks);
  }

  /** The completeness part of `UniqueSourcesFacts`. */
  lemma UniqueSourcesComplete(chunks: seq<ResponseChunk>)
    ensures var gs, r := Grounding(chunks), UniqueSources(chunks);
      forall k :: 0 <= k < |gs| && Usable(gs[k]) ==>
        exists i :: 0 <= i < |r| && r[i].uri == gs[k].web.value.uri
  {
    var gs := Grounding(chunks);
    var m, r := GatherAll(gs), UniqueSources(chunks);
    GatheredKeys(gs);
    UniqueSourcesKeys(chunks);
    forall k | 0 <= k < |gs| && Usable(gs[k])
      ensures exists i :: 0 <= i < |r| && r[i].uri == gs[k].web.value.uri
    {
      var u := gs[k].web.value.uri;
      assert Cites(gs[k], u);
      assert u in m.entries;
      assert u in m.keys;
      var i :| 0 <= i < |m.keys| && m.keys[i] == u;
      assert r[i].uri == u;
    }
  }

  /**
   * The text items: each carries a non-empty text, there is one per chunk
   * with non-empty text, and together they spell out all the upstream text.
   */
  lemma {:induction false} TextItemsFacts(chunks: seq<ResponseChunk>)
    ensures var items := TextItems(chunks);
      && (forall i :: 0 <= i < |items| ==> items[i].TextChunk? && items[i].text != "")
      && |items| == TextCount(chunks)
  {
    if chunks != [] {
      TextItemsFacts(chunks[..|chunks| - 1]);
    }
  }

  /** One more upstream chunk extends the text items and the grounding list at the end. */
  lemma PrefixStep(chunks: seq<ResponseChunk>, i: nat)
    requires i < |chunks|
    ensures Grounding(chunks[..i + 1]) == Grounding(chunks[..i]) + chunks[i].grounding
    ensures TextItems(chunks[..i + 1]) ==
      TextItems(chunks[..i]) + (if chunks[i].text != "" then [TextChunk(chunks[i].text)] else [])
  {
    assert chunks[..i + 1][..i] == chunks[..i];
  }

  /** One more grounding chunk is one more `Gather` step. */
  lemma GatherStep(done: seq<GroundingChunk>, gs: seq<GroundingChunk>, j: nat)
    requires j < |gs|
    ensures GatherAll(done + gs[..j + 1]) == Gather(GatherAll(done + gs[..j]), gs[j])
  {
    assert (done + gs[..j + 1])[..|done| + j] == done + gs[..j];
  }

  /**
   * `getChatResponseStream`: the key guard first, then for each upstream
   * chunk its text item (if its text is non-empty) and its grounding chunks
   * into the insertion-ordered map; when the upstream completes, the final
   * item with the map's values; when it fails, the fixed service error.
   */
  method ChatResponseStream(apiKey: string, question: string, upstream: Upstream)
    returns (items: seq<StreamItem>, error: Option<string>)
    ensures Response(items, error) == Expected(apiKey, upstream)
    ensures apiKey == "" ==> items == [] && error == Some(ApiKeyMissing)
    ensures apiKey != "" && upstream.ending == Failed ==> error == Some(ServiceUnavailable)
    ensures error.None? ==>
      && |items| >= 1 && items[|items| - 1] == Final(UniqueSources(upstream.chunks))
      && (forall i :: 0 <= i < |items| - 1 ==> items[i].TextChunk? && items[i].text != "")
    ensures error.Some? ==> forall i :: 0 <= i < |items| ==> items[i].TextChunk?
  {
    items := [];
    if apiKey == "" {
      return [], Some(ApiKeyMissing);
    }
    var chunks := upstream.chunks;
    var uniqueSources: JsMap<Source> := Empty();
    var i := 0;
    while i < |chunks|
      invariant 0 <= i <= |chunks|
      invariant items == TextItems(chunks[..i])
      invariant uniqueSources == GatherAll(Grounding(chunks[..i]))
    {
      var chunk := chunks[i];
      PrefixStep(chunks, i);
      if chunk.text != "" {
        items := items + [TextChunk(chunk.text)];
      }
      var done := Grounding(chunks[..i]);
      assert done + chunk.grounding[..0] == done;
      var j := 0;
      while j < |chunk.grounding|
        invariant 0 <= j <= |chunk.grounding|
        invariant uniqueSources == GatherAll(done + chunk.grounding[..j])
      {
        var g := chunk.grounding[j];
        GatherStep(done, chunk.grounding, j);
        if g.web.Some? && g.web.value.uri != "" && !uniqueSources.Has(g.web.value.uri) {
          uniqueSources := Set(uniqueSources, g.web.value.uri, SourceOf(g.web.value));
        }
        j := j + 1;
      }
      assert chunk.grounding[..j] == chunk.grounding;
      i := i + 1;
    }
    assert chunks[..i] == chunks;
    TextItemsFacts(chunks);
    if upstream.ending == Failed {
      return items, Some(ServiceUnavailable);
    }
    items := items + [Final(Values(uniqueSources))];
    error := None;
  }
}

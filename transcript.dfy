/** The value-level meaning of the recognizer's `onresult` handler: how one
    result event changes the pair (finalTranscript, interimTranscript), and
    how the transcript is seeded when a recording starts. The handler itself
    is `Dictation.DictationSession.OnResult`, proved against `Merge`. */
module Transcript {
  import opened JsText

  /** One entry of `event.results`: the transcript of its first alternative
      and whether the recognizer has frozen it. */
  datatype ResultEntry = ResultEntry(text: string, isFinal: bool)

  /** A result event: `event.resultIndex` and `event.results`. */
  datatype ResultBatch = ResultBatch(resultIndex: nat, results: seq<ResultEntry>)

  /** The two module globals the handler rewrites. */
  datatype Transcript = Transcript(final: string, interim: string)
  {
    /** What the handler writes into the speech textarea. */
    function Displayed(): string
    {
      final + interim
    }
  }

  /** The entries the `for` loop visits: from `resultIndex` to the end (none
      when `resultIndex` is already past the end). */
  function Unread(b: ResultBatch): seq<ResultEntry>
  {
    if b.resultIndex <= |b.results| then b.results[b.resultIndex..] else []
  }

  /** What a visited entry appends to `finalTranscript`. */
  function FinalPiece(e: ResultEntry): string
  {
    if e.isFinal then e.text + " " else ""
  }

  /** What a visited entry appends to `interimTranscript`. */
  function InterimPiece(e: ResultEntry): string
  {
    if e.isFinal then "" else e.text
  }

  /** Every final entry's text followed by one space, in index order. */
  function FinalText(entries: seq<ResultEntry>): string
  {
    if entries == [] then ""
    else FinalText(entries[..|entries| - 1]) + FinalPiece(entries[|entries| - 1])
  }

  /** Every non-final entry's text, in index order, with no separator. */
  function InterimText(entries: seq<ResultEntry>): string
  {
    if entries == [] then ""
    else InterimText(entries[..|entries| - 1]) + InterimPiece(entries[|entries| - 1])
  }

  /** One `onresult`: the final text of the visited entries is appended to
      the old final transcript; the interim transcript is rebuilt from the
      visited entries alone. */
  function Merge(t: Transcript, b: ResultBatch): Transcript
  {
    Transcript(t.final + FinalText(Unread(b)), InterimText(Unread(b)))
  }

  /** A run of result events, in delivery order. */
  function MergeAll(t: Transcript, bs: seq<ResultBatch>): Transcript
    decreases |bs|
  {
    if bs == [] then t else MergeAll(Merge(t, bs[0]), bs[1..])
  }

  /** The final transcript a recording starts from: the trimmed text already in
      the textarea plus one space, or nothing when that text is blank. */
  function SeedFinal(existing: string): string
  {
    var t := Trim(existing);
    if t != [] then t + " " else ""
  }

  /** Seeding keeps the old text: the seed trims back to the trimmed old text,
      is empty only for blank text, and otherwise is that text and one space. */
  lemma {:induction false} SeedKeepsText(existing: string)
    ensures Trim(SeedFinal(existing)) == Trim(existing)
    ensures SeedFinal(existing) == [] <==> IsBlank(existing)
    ensures SeedFinal(existing) != [] ==> SeedFinal(existing) == Trim(existing) + " "
  {
    var t := Trim(existing);
    if t != [] {
      TrimIdempotent(existing);
      TrimDropsAddedSpace(t);
    }
  }

  /** The appended final text splits along any split of the entries. */
  lemma {:induction false} FinalTextAppend(a: seq<ResultEntry>, b: seq<ResultEntry>)
    ensures FinalText(a + b) == FinalText(a) + FinalText(b)
    decreases |b|
  {
    if b != [] {
      var b' := b[..|b| - 1];
      assert (a + b)[..|a + b| - 1] == a + b';
      FinalTextAppend(a, b');
    } else {
      assert a + b == a;
    }
  }

  /** The rebuilt interim text splits along any split of the entries. */
  lemma {:induction false} InterimTextAppend(a: seq<ResultEntry>, b: seq<ResultEntry>)
    ensures InterimText(a + b) == InterimText(a) + InterimText(b)
    decreases |b|
  {
    if b != [] {
      var b' := b[..|b| - 1];
      assert (a + b)[..|a + b| - 1] == a + b';
      InterimTextAppend(a, b');
    } else {
      assert a + b == a;
    }
  }

  /** The entries a `for` loop started at `resultIndex` has visited when its
      counter reaches `i`. */
  function Visited(b: ResultBatch, i: nat): seq<ResultEntry>
  {
    if b.resultIndex <= i <= |b.results| then b.results[b.resultIndex..i] else []
  }

  /** Visiting one more entry appends that entry's pieces; a loop that has run
      to the end has visited exactly the unread entries. */
  lemma VisitOneMore(b: ResultBatch, i: nat)
    requires b.resultIndex <= i < |b.results|
    ensures FinalText(Visited(b, i + 1)) == FinalText(Visited(b, i)) + FinalPiece(b.results[i])
    ensures InterimText(Visited(b, i + 1)) == InterimText(Visited(b, i)) + InterimPiece(b.results[i])
  {
    assert Visited(b, i + 1)[..i - b.resultIndex] == Visited(b, i);
  }

  lemma AppendAssociates(a: string, b: string, c: string)
    ensures (a + b) + c == a + (b + c)
  {
  }

  /** Final text is made of whole "text + space" pieces: when there is any,
      it ends with the separating space. */
  lemma {:induction false} FinalTextEndsWithSpace(entries: seq<ResultEntry>)
    requires FinalText(entries) != []
    ensures FinalText(entries)[|FinalText(entries)| - 1] == ' '
  {
    var last := entries[|entries| - 1];
    if !last.isFinal {
      FinalTextEndsWithSpace(entries[..|entries| - 1]);
    }
  }

  /** Interim entries never reach the final transcript: a batch with no final
      entry leaves the final transcript as it was. */
  lemma {:induction false} NoFinalEntriesNoFinalText(entries: seq<ResultEntry>)
    requires forall i :: 0 <= i < |entries| ==> !entries[i].isFinal
    ensures FinalText(entries) == []
  {
    if entries != [] {
      NoFinalEntriesNoFinalText(entries[..|entries| - 1]);
    }
  }

  /** Final entries never reach the interim transcript. */
  lemma {:induction false} AllFinalEntriesNoInterimText(entries: seq<ResultEntry>)
    requires forall i :: 0 <= i < |entries| ==> entries[i].isFinal
    ensures InterimText(entries) == []
  {
    if entries != [] {
      AllFinalEntriesNoInterimText(entries[..|entries| - 1]);
    }
  }

  /** The old final transcript is a prefix of the new one, and the old interim
      transcript is discarded, not extended: two transcripts with the same
      final part merge to the same result. */
  lemma MergeExtendsFinalAndReplacesInterim(t: Transcript, u: Transcript, b: ResultBatch)
    requires t.final == u.final
    ensures StartsWith(Merge(t, b).final, t.final)
    ensures Merge(t, b) == Merge(u, b)
  {
  }

  /** Entries before `resultIndex` contribute nothing: two events that agree
      from `resultIndex` on have the same effect. */
  lemma EntriesBeforeResultIndexIgnored(t: Transcript, b: ResultBatch, c: ResultBatch)
    requires b.resultIndex == c.resultIndex <= |b.results| == |c.results|
    requires forall i :: b.resultIndex <= i < |b.results| ==> b.results[i] == c.results[i]
    ensures Merge(t, b) == Merge(t, c)
  {
    assert Unread(b) == Unread(c);
  }

  /** Over a whole run of events the final transcript only grows: the final
      transcript the run started from stays its prefix. */
  lemma {:induction false} MergeAllExtendsFinal(t: Transcript, bs: seq<ResultBatch>)
    ensures StartsWith(MergeAll(t, bs).final, t.final)
    decreases |bs|
  {
    if bs != [] {
      var t' := Merge(t, bs[0]);
      MergeAllExtendsFinal(t', bs[1..]);
      assert MergeAll(t, bs).final[..|t'.final|] == t'.final;
    }
  }

  /** After a run of events the interim transcript is the one the last event
      rebuilt. */
  lemma {:induction false} MergeAllInterimIsLast(t: Transcript, bs: seq<ResultBatch>)
    requires bs != []
    ensures MergeAll(t, bs).interim == InterimText(Unread(bs[|bs| - 1]))
    decreases |bs|
  {
    if |bs| > 1 {
      MergeAllInterimIsLast(Merge(t, bs[0]), bs[1..]);
    }
  }

  /** There is no guard against re-delivery: an event carrying final text that
      arrives twice appends that text twice. */
  lemma RedeliveryAppendsTwice(t: Transcript, b: ResultBatch)
    requires FinalText(Unread(b)) != []
    ensures Merge(Merge(t, b), b).final == t.final + FinalText(Unread(b)) + FinalText(Unread(b))
    ensures Merge(Merge(t, b), b) != Merge(t, b)
  {
    assert |Merge(Merge(t, b), b).final| > |Merge(t, b).final|;
  }

  /** An event carrying a single entry at index 0 appends that entry's final
      piece and shows its interim piece. */
  lemma SingleEntry(t: Transcript, e: ResultEntry)
    ensures Merge(t, ResultBatch(0, [e])) == Transcript(t.final + FinalPiece(e), InterimPiece(e))
  {
    assert Unread(ResultBatch(0, [e])) == [e];
    assert [e][..0] == [];
    assert FinalText([e]) == "" + FinalPiece(e) == FinalPiece(e);
    assert InterimText([e]) == "" + InterimPiece(e) == InterimPiece(e);
  }

  /** Result numbering restarts at 0 after the recognizer is restarted, and the
      handler simply appends from there: "halo" finalized in one run and
      "dunia" in the next give "halo dunia ", neither lost nor doubled. */
  lemma RestartAppendsNextRun()
    ensures MergeAll(Transcript("", ""),
                     [ResultBatch(0, [ResultEntry("halo", true)]),
                      ResultBatch(0, [ResultEntry("dunia", true)])]).final == "halo dunia "
  {
    var b0 := ResultBatch(0, [ResultEntry("halo", true)]);
    var b1 := ResultBatch(0, [ResultEntry("dunia", true)]);
    assert FinalText(Unread(b0)) == "halo ";
    assert FinalText(Unread(b1)) == "dunia ";
    assert [b0, b1][1..] == [b1];
  }

  /** Two successive interim events "a" and then "ab" leave "ab", never "aab". */
  lemma InterimIsReplaced()
    ensures MergeAll(Transcript("", ""),
                     [ResultBatch(0, [ResultEntry("a", false)]),
                      ResultBatch(0, [ResultEntry("ab", false)])]).interim == "ab"
  {
    var b0 := ResultBatch(0, [ResultEntry("a", false)]);
    var b1 := ResultBatch(0, [ResultEntry("ab", false)]);
    MergeAllInterimIsLast(Transcript("", ""), [b0, b1]);
    assert InterimText(Unread(b1)) == "ab";
  }

  /** Resuming a recording keeps the old text: with no new results, trimming
      the seeded final transcript gives back the trimmed old text; with new
      results, the old text is followed by one space and the new text. */
  lemma {:induction false} ResumeKeepsOldText(existing: string, bs: seq<ResultBatch>)
    requires !IsBlank(existing)
    ensures StartsWith(MergeAll(Transcript(SeedFinal(existing), ""), bs).final, Trim(existing) + " ")
  {
    SeedKeepsText(existing);
    MergeAllExtendsFinal(Transcript(SeedFinal(existing), ""), bs);
  }
}

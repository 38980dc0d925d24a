/** A codec that obeys the laws asked of one, so that what rests on them is not empty. */
module SampleCodec {
  import opened Wrappers
  import opened PyText
  import opened OfflineQueue

  function Marks(n: nat, c: char): (s: string)
    ensures |s| == n && forall i | 0 <= i < n :: s[i] == c
  {
    seq(n, _ => c)
  }

  // Two numbers in unary, between braces.
  function Enc(e: Event): (s: string)
    ensures |s| == e.id + e.bytes + 3 && s[0] == '{' && s[|s| - 1] == '}'
    ensures forall i | 0 < i < |s| - 1 :: s[i] in {'a', ',', 'b'}
  {
    "{" + Marks(e.id, 'a') + "," + Marks(e.bytes, 'b') + "}"
  }

  function Dec(s: string): Option<Event> {
    var n := Find(s, ',');
    if n == 0 || |s| < n + 2 then None
    else
      var e := Event(n - 1, |s| - n - 2);
      if Enc(e) == s then Some(e) else None
  }

  const SAMPLE: Codec := Codec(e => Enc(e), s => Dec(s))

  lemma DecodesBack(e: Event)
    ensures Dec(Enc(e)) == Some(e)
  {
    var front := "{" + Marks(e.id, 'a');
    assert Enc(e) == front + [','] + (Marks(e.bytes, 'b') + "}");
    FindAfter(front, ',', Marks(e.bytes, 'b') + "}");
  }

  predicate Plain(s: string) {
    forall i | 0 <= i < |s| :: s[i] in {'{', 'a', ',', 'b', '}'}
  }

  lemma {:induction false} RunOnIsPlain(cuts: seq<Cut>)
    requires SAMPLE.Pieces(cuts)
    ensures Plain(SAMPLE.RunOn(cuts)) && |SAMPLE.RunOn(cuts)| >= |cuts|
    ensures Strip(SAMPLE.RunOn(cuts)) == SAMPLE.RunOn(cuts)
  {
    if cuts != [] {
      var n := |cuts| - 1;
      RunOnIsPlain(cuts[..n]);
      var piece := Enc(cuts[n].event)[..cuts[n].k];
      assert SAMPLE.RunOn(cuts) == SAMPLE.RunOn(cuts[..n]) + piece;
    }
    StripKeeps(SAMPLE.RunOn(cuts));
  }

  // Cut short it lacks the closing brace; run together it opens twice.
  lemma BrokenIsNoRecord(cuts: seq<Cut>, e: Event)
    requires SAMPLE.Broken(cuts)
    ensures SAMPLE.RunOn(cuts) != Enc(e)
  {
    var n := |cuts| - 1;
    var front, piece := SAMPLE.RunOn(cuts[..n]), Enc(cuts[n].event)[..cuts[n].k];
    assert SAMPLE.RunOn(cuts) == front + piece;
    RunOnIsPlain(cuts[..n]);
    if n == 0 {
      assert front == "" && (front + piece)[|piece| - 1] == piece[|piece| - 1];
      assert piece[|piece| - 1] != '}';
    } else {
      assert (front + piece)[|front|] == '{' && |front| > 0;
      assert Enc(e)[|Enc(e)| - 1] == '}';
    }
  }

  lemma SampleIsLawful()
    ensures SAMPLE.Lawful()
  {
    forall e ensures SAMPLE.RecordIsALine(e) && SAMPLE.decode(SAMPLE.encode(e)) == Some(e) {
      DecodesBack(e);
    }
    forall cuts | SAMPLE.Broken(cuts) ensures SAMPLE.decode(Strip(SAMPLE.RunOn(cuts))) == None {
      RunOnIsPlain(cuts);
      forall e ensures Enc(e) != SAMPLE.RunOn(cuts) { BrokenIsNoRecord(cuts, e); }
    }
  }
}

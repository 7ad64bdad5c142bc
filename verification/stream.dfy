/**
 * The citation-safe splitter that sits between the model's token stream and the client in
 * `stream_synthesize_answer`: every non-empty delta is appended to a `pending` buffer; when
 * the buffer's last `[` comes after its last `]` the text before that `[` is released and the
 * bracketed tail is held back, otherwise the whole buffer is released; whatever is still
 * held when the stream ends is released as it is.
 */
module Stream {
  import opened Text

  /** What the buffer may hold between deltas: nothing, or an unclosed `[...` fragment. */
  predicate Held(pending: string) {
    pending == "" || (pending[0] == '[' && forall k :: 0 <= k < |pending| ==> pending[k] != ']')
  }

  /** A unit whose last `[` is not followed by a `]`: it ends inside a possible marker. */
  predicate OpenTail(u: string) {
    LastIndexOf(u, '[') > LastIndexOf(u, ']')
  }

  /**
   * A boundary between two consecutive units is safe when the first unit does not end inside
   * an open bracket, or the next unit starts a new bracket (so the open one was no marker).
   */
  predicate SafeBoundary(u: string, v: string) {
    OpenTail(u) ==> v != "" && v[0] == '['
  }

  predicate NoEmpty(units: seq<string>) {
    forall j :: 0 <= j < |units| ==> units[j] != ""
  }

  predicate AllSafe(units: seq<string>) {
    forall j :: 0 <= j < |units| - 1 ==> SafeBoundary(units[j], units[j + 1])
  }

  /** The units released by one delta and the buffer left behind. */
  datatype Fed = Fed(out: seq<string>, pending: string)

  /** One turn of the loop: the effect of delta `delta` on buffer `pending`. */
  function Feed(pending: string, delta: string): Fed {
    if delta == "" then Fed([], pending)
    else
      var p := pending + delta;
      var lastOpen, lastClose := LastIndexOf(p, '['), LastIndexOf(p, ']');
      if lastOpen > lastClose then
        if lastOpen > 0 then Fed([p[..lastOpen]], p[lastOpen..])
        else Fed([], p)
      else Fed([p], "")
  }

  /** The loop over all deltas, starting from buffer `pending`. */
  function Drain(deltas: seq<string>, pending: string): Fed {
    if deltas == [] then Fed([], pending)
    else
      var f := Feed(pending, deltas[0]);
      var g := Drain(deltas[1..], f.pending);
      Fed(f.out + g.out, g.pending)
  }

  /** The units a complete stream yields: the loop's output, then the final flush. */
  function Units(deltas: seq<string>): seq<string> {
    var d := Drain(deltas, "");
    d.out + (if d.pending != "" then [d.pending] else [])
  }

  /**
   * One turn of the splitter's loop as the source runs it: the delta is appended to the
   * buffer, and either the text before its last `[` is released, or nothing, or all of it.
   */
  method FeedDelta(pending: string, delta: string) returns (released: seq<string>, rest: string)
    ensures Fed(released, rest) == Feed(pending, delta)
  {
    released, rest := [], pending;
    if delta != "" {
      rest := rest + delta;
      var lastOpen := LastIndexOf(rest, '[');
      var lastClose := LastIndexOf(rest, ']');
      if lastOpen > lastClose {
        var safePrefix := rest[..lastOpen];
        if safePrefix != "" {
          released := [safePrefix];
          rest := rest[lastOpen..];
        }
      } else {
        released := [rest];
        rest := "";
      }
    }
  }

  /**
   * The splitter as the source runs it: one pass over the deltas that mutates `pending`
   * and appends to the yielded units, then the final flush.
   */
  method SplitStream(deltas: seq<string>) returns (units: seq<string>)
    ensures units == Units(deltas)
  {
    units := [];
    var pending := "";
    var i := 0;
    while i < |deltas|
      invariant 0 <= i <= |deltas|
      invariant Fed(units, pending) == Drain(deltas[..i], "")
    {
      var released, rest := FeedDelta(pending, deltas[i]);
      assert Fed(units + released, rest) == Drain(deltas[..i + 1], "") by {
        assert deltas[..i + 1] == deltas[..i] + [deltas[i]];
        DrainSnoc(deltas[..i], deltas[i], "");
      }
      units, pending := units + released, rest;
      i := i + 1;
    }
    assert deltas[..i] == deltas;
    if pending != "" {
      units := units + [pending];
    }
  }

  /** Draining one more delta continues from where the shorter drain stopped. */
  lemma {:induction false} DrainSnoc(deltas: seq<string>, delta: string, pending: string)
    ensures var d := Drain(deltas, pending);
      var f := Feed(d.pending, delta);
      Drain(deltas + [delta], pending) == Fed(d.out + f.out, f.pending)
  {
    if deltas == [] {
      assert [] + [delta] == [delta];
      assert [delta][1..] == [];
    } else {
      var f0 := Feed(pending, deltas[0]);
      assert (deltas + [delta])[1..] == deltas[1..] + [delta];
      DrainSnoc(deltas[1..], delta, f0.pending);
      var d := Drain(deltas[1..], f0.pending);
      var f := Feed(d.pending, delta);
      assert f0.out + (d.out + f.out) == (f0.out + d.out) + f.out;
    }
  }

  // ---------------------------------------------------------------------------
  // Properties of the splitter
  // ---------------------------------------------------------------------------

  /** One delta loses and reorders nothing. */
  lemma FeedConcat(pending: string, delta: string)
    ensures var r := Feed(pending, delta); Concat(r.out) + r.pending == pending + delta
  {
    if delta != "" {
      var p := pending + delta;
      var lastOpen := LastIndexOf(p, '[');
      if lastOpen > LastIndexOf(p, ']') && lastOpen > 0 {
        assert p == p[..lastOpen] + p[lastOpen..];
      }
    }
  }

  /**
   * One delta releases at most one unit, never an empty one, starting where the buffer
   * started; the buffer it leaves is empty or an unclosed `[` run; and it releases a unit
   * ending inside an open bracket only while holding the rest of that bracket back.
   */
  lemma FeedShape(pending: string, delta: string)
    ensures var r := Feed(pending, delta);
      && (Held(pending) ==> Held(r.pending))
      && NoEmpty(r.out) && |r.out| <= 1
      && (r.out == [] ==> r.pending == pending + delta)
      && (r.out != [] && pending != "" ==> r.out[0][0] == pending[0])
      && (r.out != [] && OpenTail(r.out[0]) ==> r.pending != "")
      && (r.out != [] && r.pending != "" ==> r.pending[0] == '[')
  {
    if delta != "" {
      var p := pending + delta;
      var lastOpen, lastClose := LastIndexOf(p, '['), LastIndexOf(p, ']');
      if lastOpen <= lastClose {
        assert !OpenTail(p);
      }
    }
  }

  /** Draining a sequence of deltas loses and reorders nothing. */
  lemma {:induction false} DrainConcat(deltas: seq<string>, pending: string)
    ensures var r := Drain(deltas, pending); Concat(r.out) + r.pending == pending + Concat(deltas)
  {
    if deltas != [] {
      var f := Feed(pending, deltas[0]);
      var g := Drain(deltas[1..], f.pending);
      FeedConcat(pending, deltas[0]);
      DrainConcat(deltas[1..], f.pending);
      Regroup(f.out, g.out, f.pending, g.pending, pending + deltas[0], Concat(deltas[1..]));
      assert Concat(deltas) == deltas[0] + Concat(deltas[1..]);
    }
  }

  /** Two steps that each lose nothing compose into one that loses nothing. */
  lemma Regroup(a: seq<string>, b: seq<string>, pa: string, pb: string, x: string, y: string)
    requires Concat(a) + pa == x
    requires Concat(b) + pb == pa + y
    ensures Concat(a + b) + pb == x + y
  {
    ConcatAppend(a, b);
    calc {
      Concat(a + b) + pb;
      Concat(a) + (Concat(b) + pb);
      (Concat(a) + pa) + y;
    }
  }

  /**
   * Draining releases no empty unit, starts with the held fragment when one was held, keeps
   * the buffer in its held shape, and releases nothing only while the buffer grows.
   */
  lemma {:induction false} DrainShape(deltas: seq<string>, pending: string)
    ensures var r := Drain(deltas, pending);
      && (Held(pending) ==> Held(r.pending))
      && NoEmpty(r.out)
      && (r.out != [] && pending != "" ==> r.out[0][0] == pending[0])
      && (r.out == [] ==> |pending| <= |r.pending|)
  {
    if deltas != [] {
      FeedShape(pending, deltas[0]);
      DrainShape(deltas[1..], Feed(pending, deltas[0]).pending);
    }
  }

  /** Draining ends on an open bracket only while holding the rest of it back. */
  lemma {:induction false} DrainOpenTail(deltas: seq<string>, pending: string)
    ensures var r := Drain(deltas, pending);
      r.out != [] && OpenTail(r.out[|r.out| - 1]) ==> r.pending != ""
  {
    if deltas != [] {
      var f := Feed(pending, deltas[0]);
      var g := Drain(deltas[1..], f.pending);
      var out := f.out + g.out;
      if g.out == [] {
        assert out == f.out;
        assert out != [] && OpenTail(out[|out| - 1]) ==> f.pending != "" by {
          FeedShape(pending, deltas[0]);
        }
        assert |f.pending| <= |g.pending| by {
          DrainShape(deltas[1..], f.pending);
        }
      } else {
        DrainOpenTail(deltas[1..], f.pending);
        assert out[|out| - 1] == g.out[|g.out| - 1];
      }
    }
  }

  /** Draining leaves every boundary between the units it releases safe. */
  lemma {:induction false} DrainSafe(deltas: seq<string>, pending: string)
    ensures AllSafe(Drain(deltas, pending).out)
  {
    if deltas != [] {
      var f := Feed(pending, deltas[0]);
      var g := Drain(deltas[1..], f.pending);
      FeedShape(pending, deltas[0]);
      DrainShape(deltas[1..], f.pending);
      DrainSafe(deltas[1..], f.pending);
      SafeAppend(f.out, g.out);
    }
  }

  /** Joining two runs of units keeps every boundary safe when the one between them is. */
  lemma SafeAppend(a: seq<string>, b: seq<string>)
    requires AllSafe(a) && AllSafe(b)
    requires a != [] && b != [] ==> SafeBoundary(a[|a| - 1], b[0])
    ensures AllSafe(a + b)
  {
    var out := a + b;
    forall j | 0 <= j < |out| - 1 ensures SafeBoundary(out[j], out[j + 1]) {
      if j + 1 < |a| {
        assert out[j] == a[j] && out[j + 1] == a[j + 1];
      } else if j + 1 == |a| {
        assert out[j] == a[|a| - 1] && out[j + 1] == b[0];
      } else {
        assert out[j] == b[j - |a|] && out[j + 1] == b[j + 1 - |a|];
      }
    }
  }

  /** The units of a finished stream concatenate to the concatenation of its deltas. */
  lemma UnitsConcat(deltas: seq<string>)
    ensures Concat(Units(deltas)) == Concat(deltas)
  {
    var d := Drain(deltas, "");
    DrainConcat(deltas, "");
    var tail := if d.pending != "" then [d.pending] else [];
    ConcatAppend(d.out, tail);
    assert Concat(tail) == d.pending;
  }

  /** The splitter never yields an empty string. */
  lemma UnitsNonEmpty(deltas: seq<string>)
    ensures NoEmpty(Units(deltas))
  {
    DrainShape(deltas, "");
  }

  /**
   * No unit boundary falls inside an open bracket unless a new bracket starts right after it;
   * in particular no `[digits]` marker is ever split across two units.
   */
  lemma UnitsSafe(deltas: seq<string>)
    ensures AllSafe(Units(deltas))
  {
    var d := Drain(deltas, "");
    DrainShape(deltas, "");
    DrainOpenTail(deltas, "");
    DrainSafe(deltas, "");
    var us := Units(deltas);
    if d.pending != "" {
      forall j | 0 <= j < |us| - 1 ensures SafeBoundary(us[j], us[j + 1]) {
        if j + 1 < |d.out| {
          assert us[j] == d.out[j] && us[j + 1] == d.out[j + 1];
        } else {
          assert us[j + 1] == d.pending;
        }
      }
    } else {
      assert us == d.out;
    }
  }

  /** A citation marker `[` digits `]` cannot straddle a safe boundary. */
  lemma MarkerNotTorn(x: string, ds: string, ys: string, v: string)
    requires AllDigits(ds)
    requires SafeBoundary(x + "[" + ds, v)
    ensures !(v != "" && (IsDigit(v[0]) || v[0] == ']'))
  {
    var u := x + "[" + ds;
    assert u[|x|] == '[';
    assert forall k :: |x| < k < |u| ==> u[k] == ds[k - |x| - 1];
    assert OpenTail(u);
  }

  /** The first delta of the example releases the plain text and holds the open bracket. */
  lemma SplitExampleFirst()
    ensures Feed("", "see source [") == Fed(["see source "], "[")
  {
    var p := "" + "see source [";
    assert p == "see source [";
    LastIndexAt(p, '[', 11);
    LastIndexAt(p, ']', -1);
    assert p[..11] == "see source " && p[11..] == "[";
  }

  /** The second delta closes the marker, and the whole buffer is released. */
  lemma SplitExampleSecond()
    ensures Feed("[", "12] for details") == Fed(["[12] for details"], "")
  {
    var p := "[" + "12] for details";
    assert p == "[12] for details";
    LastIndexAt(p, '[', 0);
    LastIndexAt(p, ']', 3);
  }

  /**
   * A concrete run: `"see source ["` then `"12] for details"` yields the plain text first and
   * the whole marker in the second unit.
   */
  lemma SplitExample()
    ensures Units(["see source [", "12] for details"]) == ["see source ", "[12] for details"]
  {
    var ds := ["see source [", "12] for details"];
    SplitExampleFirst();
    SplitExampleSecond();
    assert ds[1..][1..] == [];
    assert Drain(ds[1..], "[") == Fed(["[12] for details"], "");
    assert Drain(ds, "") == Fed(["see source ", "[12] for details"], "");
  }
}

// The reader of a tally in MCNP's output file (Code/MCNP_Utilities.py).
module McnpTally {
  import opened Wrappers
  import opened PyMath
  import opened PyText

  // ---------------------------------------------------------------------------
  // Tally output

  /** Whether the blank-split line opens tally `tnum`: "1tally <tnum> nps". */
  predicate IsTallyHeader(words: seq<string>, tnum: string)
  {
    |words| >= 3 && words[0] == "1tally" && words[1] == Strip(tnum) && words[2] == "nps"
  }

  /** One row of an open tally block: "total" closes the block (None);
      otherwise `[float(w0), float(w1)]`, evaluated left to right. */
  function ParseRow(words: seq<string>): (r: Result<Option<(real, real)>>)
    ensures r.Ok? && r.value.None? <==> words != [] && words[0] == "total"
    ensures r.Ok? && r.value.Some? ==>
      |words| >= 2 && Some(r.value.value.0) == ParseFloat(words[0]) && Some(r.value.value.1) == ParseFloat(words[1])
  {
    if words == [] then Err(IndexError("list index out of range"))
    else if words[0] == "total" then Ok(None)
    else if ParseFloat(words[0]).None? then Err(ValueError("could not convert string to float"))
    else if |words| < 2 then Err(IndexError("list index out of range"))
    else if ParseFloat(words[1]).None? then Err(ValueError("could not convert string to float"))
    else Ok(Some((ParseFloat(words[0]).value, ParseFloat(words[1]).value)))
  }

  /** Each line of the file split at blanks, `line.strip().split()`. */
  function SplitLines(lines: seq<string>): (r: seq<seq<string>>)
    ensures |r| == |lines| && forall k :: 0 <= k < |lines| ==> r[k] == Tokens(lines[k])
  {
    seq(|lines|, k requires 0 <= k < |lines| => Tokens(lines[k]))
  }

  /** What ParseRow makes of each split line. */
  function ParsedRows(ws: seq<seq<string>>): (r: seq<Result<Option<(real, real)>>>)
    ensures |r| == |ws| && forall k :: 0 <= k < |ws| ==> r[k] == ParseRow(ws[k])
  {
    seq(|ws|, k requires 0 <= k < |ws| => ParseRow(ws[k]))
  }

  /** What the rest of the file adds to the tally, from line i of the split
      lines ws, whose rows parse to ps (ParsedRows(ws)), with `inside`
      telling whether a tally block is open. A header reads 11 more lines
      (running out of lines raises StopIteration) and the last of them is
      taken as the first row. */
  function TallyFrom(ws: seq<seq<string>>, ps: seq<Result<Option<(real, real)>>>, tnum: string, i: nat, inside: bool)
    : (r: Result<seq<(real, real)>>)
    requires i <= |ws| == |ps|
    ensures r.Ok? ==> |r.value| <= |ws| - i
    decreases |ws| - i, 1
  {
    if i == |ws| then Ok([])
    else
      var header := IsTallyHeader(ws[i], tnum);
      if header && i + 11 >= |ws| then Err(StopIteration)
      else TallyAt(ws, ps, tnum, if header then i + 11 else i, inside || header)
  }

  /** What line j, the line a row would be read from, and the lines after
      it add to the tally: outside a block nothing; inside, a row is kept,
      the "total" line closes the block and anything else is the error
      ParseRow raises. */
  function TallyAt(ws: seq<seq<string>>, ps: seq<Result<Option<(real, real)>>>, tnum: string, j: nat, open: bool)
    : (r: Result<seq<(real, real)>>)
    requires j < |ws| == |ps|
    ensures r.Ok? ==> |r.value| <= |ws| - j
    decreases |ws| - j, 0
  {
    if !open then TallyFrom(ws, ps, tnum, j + 1, false)
    else
      match ps[j]
      case Err(e) => Err(e)
      case Ok(None) => TallyFrom(ws, ps, tnum, j + 1, false)
      case Ok(Some(p)) => PrependRows([p], TallyFrom(ws, ps, tnum, j + 1, true))
  }

  function PrependRows(rows: seq<(real, real)>, r: Result<seq<(real, real)>>): Result<seq<(real, real)>>
  {
    match r
    case Err(e) => Err(e)
    case Ok(rest) => Ok(rows + rest)
  }

  /** `Read_Tally_Output` over the lines of the output file. */
  method ReadTallyOutput(lines: seq<string>, tnum: string) returns (r: Result<seq<(real, real)>>)
    ensures r == TallyFrom(SplitLines(lines), ParsedRows(SplitLines(lines)), tnum, 0, false)
  {
    SplitAll(lines, 0);
    r := ReadTallyLines(lines, SplitLines(lines), ParsedRows(SplitLines(lines)), tnum);
  }

  /** ys holds, from index i on, f of the corresponding entry of xs: the
      words of each line (f = Tokens), or what ParseRow makes of them. */
  ghost predicate MappedFrom<X, Y>(xs: seq<X>, ys: seq<Y>, f: X -> Y, i: nat)
    requires i <= |xs| == |ys|
    decreases |xs| - i
  {
    i == |xs| || (ys[i] == f(xs[i]) && MappedFrom(xs, ys, f, i + 1))
  }

  lemma {:induction false} SplitAll(lines: seq<string>, i: nat)
    requires i <= |lines|
    ensures MappedFrom(lines, SplitLines(lines), Tokens, i)
    ensures MappedFrom(SplitLines(lines), ParsedRows(SplitLines(lines)), ParseRow, i)
    decreases |lines| - i
  {
    if i < |lines| {
      SplitAll(lines, i + 1);
      var ws := SplitLines(lines);
      assert ws[i] == Tokens(lines[i]);
      assert ParsedRows(ws)[i] == ParseRow(ws[i]);
    }
  }

  lemma {:induction false} MappedAt<X, Y>(xs: seq<X>, ys: seq<Y>, f: X -> Y, i: nat, k: nat)
    requires i <= k < |xs| == |ys| && MappedFrom(xs, ys, f, i)
    ensures ys[k] == f(xs[k])
    decreases k - i
  {
    if i < k {
      MappedAt(xs, ys, f, i + 1, k);
    }
  }

  /** The loop of `Read_Tally_Output`. */
  method ReadTallyLines(lines: seq<string>, ghost ws: seq<seq<string>>, ghost ps: seq<Result<Option<(real, real)>>>, tnum: string)
    returns (r: Result<seq<(real, real)>>)
    requires |lines| == |ws| == |ps| && MappedFrom(lines, ws, Tokens, 0) && MappedFrom(ws, ps, ParseRow, 0)
    ensures r == TallyFrom(ws, ps, tnum, 0, false)
  {
    var tally: seq<(real, real)> := [];
    var inside := false;
    var i := 0;
    assert PrependRows([], TallyFrom(ws, ps, tnum, 0, false)) == TallyFrom(ws, ps, tnum, 0, false) by {
      PrependNothing(TallyFrom(ws, ps, tnum, 0, false));
    }
    while i < |lines|
      invariant i <= |lines|
      invariant TallyFrom(ws, ps, tnum, 0, false) == PrependRows(tally, TallyFrom(ws, ps, tnum, i, inside))
      decreases |lines| - i
    {
      var step := TallyStep(lines, ws, ps, tnum, i, inside);
      if step.Err? {
        return Err(step.error);
      }
      var (next, open, rows) := step.value;
      PrependTwice(tally, rows, TallyFrom(ws, ps, tnum, next, open));
      tally, i, inside := tally + rows, next, open;
    }
    assert tally + [] == tally;
    return Ok(tally);
  }

  /** One pass of `Read_Tally_Output`'s loop from line i: a header opens
      the block and moves 11 lines ahead (running out of lines raises
      StopIteration); inside a block the line is then parsed as a row (kept),
      the "total" line (closing the block) or an error. The result is the
      next line to read, whether a block is then open and the rows kept,
      which with the file from that line on give what the file from line i
      gives. */
  method TallyStep(lines: seq<string>, ghost ws: seq<seq<string>>, ghost ps: seq<Result<Option<(real, real)>>>,
                   tnum: string, i: nat, inside: bool)
    returns (r: Result<(nat, bool, seq<(real, real)>)>)
    requires |lines| == |ws| == |ps| && MappedFrom(lines, ws, Tokens, 0) && MappedFrom(ws, ps, ParseRow, 0) && i < |lines|
    ensures r.Err? ==> TallyFrom(ws, ps, tnum, i, inside) == Err(r.error)
    ensures r.Ok? ==>
      && i < r.value.0 <= |ws|
      && TallyFrom(ws, ps, tnum, i, inside) == PrependRows(r.value.2, TallyFrom(ws, ps, tnum, r.value.0, r.value.1))
  {
    var j, open := i, inside;
    var words := Tokens(lines[i]);
    MappedAt(lines, ws, Tokens, 0, i);
    if IsTallyHeader(words, tnum) {
      if i + 11 >= |lines| {
        return Err(StopIteration);
      }
      j, open := i + 11, true;
      words := Tokens(lines[j]);
      MappedAt(lines, ws, Tokens, 0, j);
    }
    if !open {
      PrependNothing(TallyFrom(ws, ps, tnum, j + 1, false));
      return Ok((j + 1, false, []));
    }
    var row := ParseRow(words);
    MappedAt(ws, ps, ParseRow, 0, j);
    if row.Err? {
      return Err(row.error);
    }
    if row.value.None? {
      PrependNothing(TallyFrom(ws, ps, tnum, j + 1, false));
      return Ok((j + 1, false, []));
    }
    return Ok((j + 1, true, [row.value.value]));
  }

  lemma PrependNothing(r: Result<seq<(real, real)>>)
    ensures PrependRows([], r) == r
  {
    if r.Ok? {
      assert [] + r.value == r.value;
    }
  }

  lemma PrependTwice(a: seq<(real, real)>, b: seq<(real, real)>, r: Result<seq<(real, real)>>)
    ensures PrependRows(a, PrependRows(b, r)) == PrependRows(a + b, r)
  {
    if r.Ok? {
      assert a + (b + r.value) == (a + b) + r.value;
    }
  }

  /** A file without the tally's header gives an empty tally. */
  lemma {:induction false} NoHeaderNoRows(ws: seq<seq<string>>, ps: seq<Result<Option<(real, real)>>>, tnum: string, i: nat)
    requires i <= |ws| == |ps|
    requires forall k :: i <= k < |ws| ==> !IsTallyHeader(ws[k], tnum)
    ensures TallyFrom(ws, ps, tnum, i, false) == Ok([])
    decreases |ws| - i
  {
    if i < |ws| {
      NoHeaderNoRows(ws, ps, tnum, i + 1);
    }
  }

  /** Lines a to b - 1 all parse as rows of a tally block. */
  predicate RowsBetween(ps: seq<Result<Option<(real, real)>>>, a: nat, b: nat)
    requires a <= b <= |ps|
    decreases b - a
  {
    a == b || (ps[a].Ok? && ps[a].value.Some? && RowsBetween(ps, a + 1, b))
  }

  /** None of lines a to b - 1 opens tally `tnum`. */
  predicate HeaderFree(ws: seq<seq<string>>, tnum: string, a: nat, b: nat)
    requires a <= b <= |ws|
    decreases b - a
  {
    a == b || (!IsTallyHeader(ws[a], tnum) && HeaderFree(ws, tnum, a + 1, b))
  }

  /** The values of rows a to b - 1, in order. */
  function RowValues(ps: seq<Result<Option<(real, real)>>>, a: nat, b: nat): (r: seq<(real, real)>)
    requires a <= b <= |ps| && RowsBetween(ps, a, b)
    ensures |r| == b - a
    decreases b - a
  {
    if a == b then [] else [ps[a].value.value] + RowValues(ps, a + 1, b)
  }

  /** Entry k - a of RowValues is what line k parses to; with ps =
      ParsedRows(ws), ParseRow's contract makes that the two floats of the
      line's first two words. */
  lemma {:induction false} RowValuesAt(ps: seq<Result<Option<(real, real)>>>, a: nat, b: nat, k: nat)
    requires a <= b <= |ps| && RowsBetween(ps, a, b) && a <= k < b
    ensures ps[k] == Ok(Some(RowValues(ps, a, b)[k - a]))
    decreases b - a
  {
    if k > a {
      RowValuesAt(ps, a + 1, b, k);
    }
  }

  /** Lines without the header leave nothing in the tally. */
  lemma {:induction false} HeaderFreeNoRows(ws: seq<seq<string>>, ps: seq<Result<Option<(real, real)>>>, tnum: string, i: nat)
    requires i <= |ws| == |ps| && HeaderFree(ws, tnum, i, |ws|)
    ensures TallyFrom(ws, ps, tnum, i, false) == Ok([])
    decreases |ws| - i
  {
    if i < |ws| {
      HeaderFreeNoRows(ws, ps, tnum, i + 1);
    }
  }

  /** Lines without the header before h leave nothing in the tally. */
  lemma {:induction false} SkipToHeader(ws: seq<seq<string>>, ps: seq<Result<Option<(real, real)>>>, tnum: string, i: nat, h: nat)
    requires i <= h <= |ws| == |ps| && HeaderFree(ws, tnum, i, h)
    ensures TallyFrom(ws, ps, tnum, i, false) == TallyFrom(ws, ps, tnum, h, false)
    decreases h - i
  {
    if i < h {
      SkipToHeader(ws, ps, tnum, i + 1, h);
    }
  }

  /** Inside an open block, the rows from i up to the "total" line t are
      the tally, when no header follows. */
  lemma {:induction false} RowsToTotal(ws: seq<seq<string>>, ps: seq<Result<Option<(real, real)>>>, tnum: string, i: nat, t: nat)
    requires i <= t < |ws| == |ps| && HeaderFree(ws, tnum, i, |ws|) && RowsBetween(ps, i, t) && ps[t] == Ok(None)
    ensures TallyFrom(ws, ps, tnum, i, true) == Ok(RowValues(ps, i, t))
    decreases t - i
  {
    if i == t {
      HeaderFreeNoRows(ws, ps, tnum, t + 1);
    } else {
      RowsToTotal(ws, ps, tnum, i + 1, t);
    }
  }

  /** `Read_Tally_Output` on a file whose only header of tally `tnum` is at
      line h: the ten lines after the header are skipped whatever they hold,
      lines h + 11 to t - 1 are rows, and line t, the "total" line (the one
      ParseRow reads as Ok(None)), closes the block; the tally is exactly
      those rows, in order (RowValuesAt reads them). With ps =
      ParsedRows(ws) this is what ReadTallyOutput returns. */
  lemma TallyLayout(ws: seq<seq<string>>, ps: seq<Result<Option<(real, real)>>>, tnum: string, h: nat, t: nat)
    requires h + 11 <= t < |ws| == |ps|
    requires IsTallyHeader(ws[h], tnum) && HeaderFree(ws, tnum, 0, h) && HeaderFree(ws, tnum, h + 12, |ws|)
    requires RowsBetween(ps, h + 11, t) && ps[t] == Ok(None)
    ensures TallyFrom(ws, ps, tnum, 0, false) == Ok(RowValues(ps, h + 11, t))
  {
    SkipToHeader(ws, ps, tnum, 0, h);
    if h + 11 == t {
      HeaderFreeNoRows(ws, ps, tnum, t + 1);
    } else {
      RowsToTotal(ws, ps, tnum, h + 12, t);
    }
  }
}

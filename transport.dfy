// The transport-input reader of Code/Transport.py: the header of a deck lists
// sampled variables on lines starting with '#' and correlated variables on
// lines starting with '@'; a blank line ends the header and the rest of the
// file is the transport input proper.
module Transport {
  import opened Wrappers
  import opened PyText

  const SampledMarker: string := "# <"
  const CorrelatedMarker: string := "@ <"

  /** A line of the file that ends the header. */
  predicate Blank(line: string)
  {
    line == "\n" || line == "\r\n"
  }

  /** The header line after `rstrip('\n')`, deleting the marker and
      turning `' ='` into `'='`. */
  function Cleaned(line: string, marker: string): string
    requires marker != []
  {
    ReplaceAll(ReplaceAll(RStripChar(line, '\n'), marker, ""), " =", "=")
  }

  /** `variable, value = line.split('=')`: the unpack succeeds only when the
      cleaned line holds exactly one '='. */
  function HeaderPair(line: string, marker: string): (r: Result<(string, string)>)
    requires marker != []
    ensures r.Ok? <==> Count(Cleaned(line, marker), '=') == 1
    ensures r.Err? ==> r.error.ValueError?
    ensures r.Ok? ==> '=' !in r.value.0 && '=' !in r.value.1
  {
    var parts := Split(Cleaned(line, marker), '=');
    SplitSize(Cleaned(line, marker), '=');
    if |parts| < 2 then Err(ValueError("not enough values to unpack"))
    else if |parts| > 2 then Err(ValueError("too many values to unpack"))
    else Ok((parts[0], parts[1]))
  }

  /** The name and value read from a header line are the two sides of its
      one '='. */
  lemma HeaderPairSides(line: string, marker: string)
    requires marker != [] && HeaderPair(line, marker).Ok?
    ensures Cleaned(line, marker) ==
      HeaderPair(line, marker).value.0 + "=" + HeaderPair(line, marker).value.1
  {
    var parts := Split(Cleaned(line, marker), '=');
    JoinSplit(Cleaned(line, marker), '=');
    assert Join(parts, '=') == parts[0] + "=" + Join(parts[1..], '=');
  }

  /** Lines as iterating over a file yields them: never empty, since each
      keeps its line ending (only the last may lack one). */
  predicate FileLines(lines: seq<string>)
  {
    forall k :: 0 <= k < |lines| ==> lines[k] != []
  }

  /** What reading the header gives: the two dictionaries and the index of
      the blank line that ended it (the length of the file when there is
      none). */
  datatype Header = Header(samp: map<string, string>, corr: map<string, string>, stop: nat)

  /** The input that follows the header: everything after the blank line,
      or nothing when the file has no blank line. */
  function Body(lines: seq<string>, stop: nat): string
    requires stop <= |lines|
  {
    if stop < |lines| then Concat(lines[stop + 1..]) else ""
  }

  /** A line the loop of `importfile` gets through: a header line must
      unpack into a name and a value. */
  predicate Readable(line: string)
    requires line != []
  {
    (line[0] == '#' ==> HeaderPair(line, SampledMarker).Ok?) &&
    (line[0] == '@' ==> HeaderPair(line, CorrelatedMarker).Ok?)
  }

  /** One pass of the loop of `importfile`: a header line updates its
      dictionary (Some), a blank line ends the header (None), any other
      line changes nothing. */
  function LineStep(line: string, samp: map<string, string>, corr: map<string, string>)
    : (r: Result<Option<(map<string, string>, map<string, string>)>>)
    requires line != []
    ensures r.Err? ==> r.error.ValueError?
    ensures r.Ok? <==> Readable(line)
    ensures r == Ok(None) <==> Blank(line)
    ensures r.Ok? && r.value.Some? ==>
      samp.Keys <= r.value.value.0.Keys && corr.Keys <= r.value.value.1.Keys
  {
    if line[0] == '#' then
      match HeaderPair(line, SampledMarker)
      case Err(e) => Err(e)
      case Ok(kv) => Ok(Some((samp[kv.0 := kv.1], corr)))
    else if line[0] == '@' then
      match HeaderPair(line, CorrelatedMarker)
      case Err(e) => Err(e)
      case Ok(kv) => Ok(Some((samp, corr[kv.0 := kv.1])))
    else if Blank(line) then Ok(None)
    else Ok(Some((samp, corr)))
  }

  /** The loop of `importfile` from line i on, with the dictionaries as they
      stand before line i. */
  function ImportFrom(lines: seq<string>, i: nat, samp: map<string, string>,
                      corr: map<string, string>): (r: Result<Header>)
    requires i <= |lines| && FileLines(lines)
    ensures r.Err? ==> r.error.ValueError?
    ensures r.Ok? ==> i <= r.value.stop <= |lines|
    decreases |lines| - i
  {
    if i == |lines| then Ok(Header(samp, corr, i))
    else
      match LineStep(lines[i], samp, corr)
      case Err(e) => Err(e)
      case Ok(None) => Ok(Header(samp, corr, i))
      case Ok(Some(next)) => ImportFrom(lines, i + 1, next.0, next.1)
  }

  /** Reading stops at the first blank line from i on, or at the end of the
      file. */
  lemma {:induction false} ImportStops(lines: seq<string>, i: nat, samp: map<string, string>,
                                       corr: map<string, string>)
    requires i <= |lines| && FileLines(lines)
    ensures var r := ImportFrom(lines, i, samp, corr);
      r.Ok? ==>
        (r.value.stop < |lines| ==> Blank(lines[r.value.stop])) &&
        (forall k :: i <= k < r.value.stop ==> !Blank(lines[k]))
    decreases |lines| - i
  {
    if i < |lines| {
      var step := LineStep(lines[i], samp, corr);
      if step.Ok? && step.value.Some? {
        ImportStops(lines, i + 1, step.value.value.0, step.value.value.1);
      }
    }
  }

  /** Reading fails exactly when a header line that cannot be unpacked comes
      before the first blank line. */
  lemma {:induction false} ImportFailsIff(lines: seq<string>, i: nat, samp: map<string, string>,
                                          corr: map<string, string>)
    requires i <= |lines| && FileLines(lines)
    ensures ImportFrom(lines, i, samp, corr).Err? <==>
      exists j :: i <= j < |lines| && !Readable(lines[j]) &&
        forall k :: i <= k < j ==> !Blank(lines[k])
    decreases |lines| - i
  {
    if i < |lines| {
      var step := LineStep(lines[i], samp, corr);
      if step.Ok? && step.value.Some? {
        ImportFailsIff(lines, i + 1, step.value.value.0, step.value.value.1);
        if ImportFrom(lines, i, samp, corr).Err? {
          var j :| i + 1 <= j < |lines| && !Readable(lines[j]) &&
            forall k :: i + 1 <= k < j ==> !Blank(lines[k]);
          assert !Blank(lines[i]);
        }
      } else if step.Ok? {
        assert Blank(lines[i]);
      } else {
        assert !Readable(lines[i]);
      }
    }
  }

  /** Reading only adds names to the dictionaries. */
  lemma {:induction false} ImportKeepsNames(lines: seq<string>, i: nat, samp: map<string, string>,
                                            corr: map<string, string>)
    requires i <= |lines| && FileLines(lines)
    ensures var r := ImportFrom(lines, i, samp, corr);
      r.Ok? ==> samp.Keys <= r.value.samp.Keys && corr.Keys <= r.value.corr.Keys
    decreases |lines| - i
  {
    if i < |lines| {
      var step := LineStep(lines[i], samp, corr);
      if step.Ok? && step.value.Some? {
        ImportKeepsNames(lines, i + 1, step.value.value.0, step.value.value.1);
      }
    }
  }

  class Transport {
    var transPath: string
    var code: string
    var sampVars: map<string, string>
    var corrVars: map<string, string>
    var transInput: string

    /** The fields as `__init__` sets them before it reads the file (the
        reading is ImportFile). */
    constructor (transInputPath: string, transCode: string)
      ensures transPath == transInputPath && code == transCode
      ensures sampVars == map[] && corrVars == map[] && transInput == ""
    {
      transPath := transInputPath;
      code := transCode;
      sampVars := map[];
      corrVars := map[];
      transInput := "";
    }

    /** `importfile` over the lines of the file, each with its line ending. */
    method ImportFile(lines: seq<string>) returns (r: Result<()>)
      requires FileLines(lines)
      modifies this
      ensures transPath == old(transPath) && code == old(code)
      ensures var spec := ImportFrom(lines, 0, old(sampVars), old(corrVars));
        (r.Err? <==> spec.Err?) &&
        (r.Err? ==> r.error == spec.error && transInput == old(transInput)) &&
        (r.Ok? ==> sampVars == spec.value.samp && corrVars == spec.value.corr &&
                   transInput == Body(lines, spec.value.stop))
    {
      var i := 0;
      while i < |lines|
        invariant 0 <= i <= |lines|
        invariant ImportFrom(lines, i, sampVars, corrVars) == ImportFrom(lines, 0, old(sampVars), old(corrVars))
        invariant transPath == old(transPath) && code == old(code) && transInput == old(transInput)
      {
        match LineStep(lines[i], sampVars, corrVars)
        case Err(e) =>
          return Err(e);
        case Ok(None) =>
          transInput := Concat(lines[i + 1..]);
          return Ok(());
        case Ok(Some(next)) =>
          sampVars, corrVars := next.0, next.1;
        i := i + 1;
      }
      transInput := "";
      return Ok(());
    }
  }

  /** A header variable as the deck declares it: sampled ('#') or
      correlated ('@'), its name and the text after the '='. */
  datatype Var = Var(sampled: bool, name: string, value: string)

  function Marker(x: Var): string
  {
    if x.sampled then SampledMarker else CorrelatedMarker
  }

  /** The header line declaring x, e.g. `# <h1 = 1:5> decimal`. */
  function HeaderLine(x: Var): string
  {
    Marker(x) + x.name + " =" + x.value + "\n"
  }

  /** A name and value the header format can carry: no '=', '<' or line
      break, and a name without blanks. */
  predicate Declarable(x: Var)
  {
    ' ' !in x.name && '=' !in x.name && '<' !in x.name && '\n' !in x.name &&
    '=' !in x.value && '<' !in x.value && '\n' !in x.value
  }

  /** Reading a declared header line gives back its name and value. */
  lemma HeaderRoundTrip(x: Var)
    requires Declarable(x)
    ensures HeaderPair(HeaderLine(x), Marker(x)) == Ok((x.name, x.value))
  {
    var m := Marker(x);
    assert '<' in m && m != [];
    assert HeaderLine(x) == m + (x.name + " =" + x.value) + "\n";
    CleanedLine(m, x.name, x.value);
    SplitPair(x.name, x.value);
  }

  /** The cleaning steps undo the layout of a header line. */
  lemma CleanedLine(m: string, k: string, v: string)
    requires m != [] && '<' in m
    requires ' ' !in k && '=' !in k && '<' !in k && '<' !in v && '=' !in v && '\n' !in v
    ensures Cleaned(m + (k + " =" + v) + "\n", m) == k + "=" + v
  {
    var body := k + " =" + v;
    assert (m + body)[|m + body| - 1] != '\n' by {
      if v == [] {
        assert (m + body)[|m + body| - 1] == '=';
      } else {
        assert (m + body)[|m + body| - 1] == v[|v| - 1];
      }
    }
    StripLineEnd(m + body);
    ReplaceFront(m, body, "");
    assert "" + ReplaceAll(body, m, "") == ReplaceAll(body, m, "");
    assert '<' !in body;
    ReplaceNone(body, m, "", '<');
    SpacedEquals(k, v);
  }

  /** `rstrip('\n')` removes exactly the line ending of a header line. */
  lemma StripLineEnd(t: string)
    requires t != [] && t[|t| - 1] != '\n'
    ensures RStripChar(t + "\n", '\n') == t
  {
    RStripOne(t, '\n');
  }

  /** `replace(' =', '=')` on a name, " =" and a value. */
  lemma SpacedEquals(k: string, v: string)
    requires ' ' !in k && '=' !in v
    ensures ReplaceAll(k + " =" + v, " =", "=") == k + "=" + v
  {
    assert k + " =" + v == k + (" =" + v);
    ReplaceSkip(k, " =" + v, " =", "=");
    ReplaceFront(" =", v, "=");
    ReplaceNone(v, " =", "=", '=');
  }

  /** Splitting `k=v` on '=' gives k and v. */
  lemma SplitPair(k: string, v: string)
    requires '=' !in k && '=' !in v
    ensures Split(k + "=" + v, '=') == [k, v]
  {
    SplitAt(k, v, '=');
    SplitNone(v, '=');
  }

  /** The dictionaries after the given declarations, in order. */
  function Declared(samp: map<string, string>, corr: map<string, string>, xs: seq<Var>)
    : (map<string, string>, map<string, string>)
  {
    if xs == [] then (samp, corr)
    else
      var x := xs[|xs| - 1];
      var (s, c) := Declared(samp, corr, xs[..|xs| - 1]);
      if x.sampled then (s[x.name := x.value], c) else (s, c[x.name := x.value])
  }

  /** A deck: the header lines declaring xs, a blank line, then the body. */
  function Deck(xs: seq<Var>, rest: seq<string>): (r: seq<string>)
    ensures |r| == |xs| + 1 + |rest|
    ensures forall j :: 0 <= j < |xs| ==> r[j] == HeaderLine(xs[j])
    ensures r[|xs|] == "\n" && r[|xs| + 1..] == rest
  {
    seq(|xs|, j requires 0 <= j < |xs| => HeaderLine(xs[j])) + ["\n"] + rest
  }

  /** A deck is made of file lines when its body is. */
  lemma DeckLines(xs: seq<Var>, rest: seq<string>)
    requires FileLines(rest)
    ensures FileLines(Deck(xs, rest))
  {
    var lines := Deck(xs, rest);
    forall k | 0 <= k < |lines| ensures lines[k] != [] {
      if k < |xs| {
        assert lines[k] == HeaderLine(xs[k]);
      } else if k > |xs| {
        assert lines[k] == lines[|xs| + 1..][k - |xs| - 1];
      }
    }
  }

  /** A deck made of header lines, a blank line and a body reads back as
      the declared dictionaries, with the body as the transport input. */
  lemma DeckRoundTrip(xs: seq<Var>, rest: seq<string>)
    requires forall j :: 0 <= j < |xs| ==> Declarable(xs[j])
    requires FileLines(rest)
    ensures FileLines(Deck(xs, rest))
    ensures ImportFrom(Deck(xs, rest), 0, map[], map[]) ==
      Ok(Header(Declared(map[], map[], xs).0, Declared(map[], map[], xs).1, |xs|))
    ensures Body(Deck(xs, rest), |xs|) == Concat(rest)
  {
    DeckLines(xs, rest);
    DeckFrom(xs, rest, 0);
    assert xs[..|xs|] == xs;
    assert xs[..0] == [];
  }

  /** The dictionaries after the first i declarations. */
  function DeclaredTo(xs: seq<Var>, i: nat): (map<string, string>, map<string, string>)
    requires i <= |xs|
  {
    Declared(map[], map[], xs[..i])
  }

  /** The induction behind DeckRoundTrip, from the last header line back. */
  lemma {:induction false} DeckFrom(xs: seq<Var>, rest: seq<string>, i: nat)
    requires i <= |xs|
    requires forall j :: 0 <= j < |xs| ==> Declarable(xs[j])
    requires FileLines(Deck(xs, rest))
    ensures ImportFrom(Deck(xs, rest), i, DeclaredTo(xs, i).0, DeclaredTo(xs, i).1) ==
      Ok(Header(DeclaredTo(xs, |xs|).0, DeclaredTo(xs, |xs|).1, |xs|))
    decreases |xs| - i
  {
    if i == |xs| {
      DeckEnd(xs, rest, DeclaredTo(xs, i).0, DeclaredTo(xs, i).1);
    } else {
      DeckFrom(xs, rest, i + 1);
      DeckStep(xs, rest, i);
    }
  }

  /** The blank line after the header ends the reading. */
  lemma DeckEnd(xs: seq<Var>, rest: seq<string>, samp: map<string, string>,
                corr: map<string, string>)
    requires FileLines(Deck(xs, rest))
    ensures ImportFrom(Deck(xs, rest), |xs|, samp, corr) == Ok(Header(samp, corr, |xs|))
  {
    var line := Deck(xs, rest)[|xs|];
    assert line == "\n" && line[0] == '\n';
  }

  /** One header line: reading it adds its declaration. */
  lemma DeckStep(xs: seq<Var>, rest: seq<string>, i: nat)
    requires i < |xs|
    requires Declarable(xs[i])
    requires FileLines(Deck(xs, rest))
    ensures ImportFrom(Deck(xs, rest), i, DeclaredTo(xs, i).0, DeclaredTo(xs, i).1) ==
      ImportFrom(Deck(xs, rest), i + 1, DeclaredTo(xs, i + 1).0, DeclaredTo(xs, i + 1).1)
  {
    var x := xs[i];
    HeaderRoundTrip(x);
    assert HeaderLine(x)[0] == Marker(x)[0];
    assert xs[..i + 1][..i] == xs[..i];
  }
}

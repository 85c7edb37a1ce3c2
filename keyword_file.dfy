// The comma-separated keyword files read by `ETA_Parameters.read_constraints`
// (Code/ETA_Utilities.py) and `ADVANTG_Settings.read_settings`
// (ADVANTG/ADVANTG_Utilities.py): each line is split on ',', its first field
// stripped and lower-cased is looked up among the keywords, and the named
// attribute is set from the remaining fields. '/' and unknown keywords change
// nothing. Both readers share this machinery; their keyword tables differ.
module KeywordFile {
  import opened Wrappers
  import opened PyText

  /** How a keyword's value is read from the fields after the keyword. */
  datatype Kind = RealKind | IntKind | TextKind | RealListKind | TextListKind

  /** An attribute value as the reader stores it. */
  datatype Value =
    | RealV(r: real)
    | IntV(i: int)
    | TextV(s: string)
    | RealsV(rs: seq<real>)
    | TextsV(ss: seq<string>)

  predicate HasKind(v: Value, kind: Kind)
  {
    match kind
    case RealKind => v.RealV?
    case IntKind => v.IntV?
    case TextKind => v.TextV?
    case RealListKind => v.RealsV?
    case TextListKind => v.TextsV?
  }

  predicate Scalar(kind: Kind)
  {
    kind != RealListKind && kind != TextListKind
  }

  /** The conversions the reader applies to a stripped field: Python's
      `float` and `int` (PythonConversions). The reader's properties hold
      whatever conversions are used, so they are proved for any. */
  datatype Conversions = Conversions(toReal: string -> Option<real>, toInt: string -> Option<int>)

  const PythonConversions: Conversions := Conversions(t => ParseFloat(t), t => ParseInt(t))

  /** `[s.strip() for s in fields]`. */
  function Strips(fields: seq<string>): (r: seq<string>)
    ensures |r| == |fields|
    ensures forall j :: 0 <= j < |fields| ==> r[j] == Strip(fields[j])
  {
    if fields == [] then [] else Strips(fields[..|fields| - 1]) + [Strip(fields[|fields| - 1])]
  }

  /** The append loop `float(t)` over every stripped field: None as soon
      as one field is not a number. */
  function ParseReals(conv: Conversions, texts: seq<string>): (r: Option<seq<real>>)
    ensures r.Some? <==> forall j :: 0 <= j < |texts| ==> conv.toReal(texts[j]).Some?
    ensures r.Some? ==> |r.value| == |texts|
    ensures r.Some? ==> forall j :: 0 <= j < |texts| ==> r.value[j] == conv.toReal(texts[j]).value
  {
    if texts == [] then Some([])
    else
      var init := ParseReals(conv, texts[..|texts| - 1]);
      var last := conv.toReal(texts[|texts| - 1]);
      if init.Some? && last.Some? then Some(init.value + [last.value]) else None
  }

  /** The value of a keyword of the given kind, read from `split_list[1:]`.
      A scalar takes the first field (IndexError when there is none); a list
      takes every field, so a line without a comma gives an empty list. */
  function ParseField(conv: Conversions, kind: Kind, fields: seq<string>): (r: Result<Value>)
    ensures r.Ok? ==> HasKind(r.value, kind)
    ensures r.Err? && r.error.IndexError? <==> Scalar(kind) && fields == []
    ensures r.Err? ==> r.error.IndexError? || r.error.ValueError?
    ensures kind == TextKind || kind == TextListKind ==> (r.Ok? <==> !(Scalar(kind) && fields == []))
  {
    var texts := Strips(fields);
    if Scalar(kind) && fields == [] then Err(IndexError("list index out of range"))
    else
      match kind
      case RealKind =>
        var v := conv.toReal(texts[0]);
        if v.Some? then Ok(RealV(v.value)) else Err(ValueError("could not convert string to float"))
      case IntKind =>
        var v := conv.toInt(texts[0]);
        if v.Some? then Ok(IntV(v.value)) else Err(ValueError("invalid literal for int()"))
      case TextKind => Ok(TextV(texts[0]))
      case RealListKind =>
        var vs := ParseReals(conv, texts);
        if vs.Some? then Ok(RealsV(vs.value)) else Err(ValueError("could not convert string to float"))
      case TextListKind => Ok(TextsV(texts))
  }

  /** The first entry of the keyword table with the given name. */
  function Lookup<K(==)>(table: seq<(string, K)>, name: string): (r: Option<K>)
    ensures r.None? <==> forall j :: 0 <= j < |table| ==> table[j].0 != name
    ensures r.Some? ==> exists j :: 0 <= j < |table| && table[j] == (name, r.value)
  {
    if table == [] then None
    else if table[0].0 == name then Some(table[0].1)
    else
      var r := Lookup(table[1..], name);
      assert r.Some? ==> exists j :: 0 <= j < |table| - 1 && table[1..][j] == (name, r.value);
      r
  }

  /** `split_list[0].strip().lower()`. */
  function Keyword(line: string): string
  {
    Lower(Strip(Split(line, ',')[0]))
  }

  /** `split_list[1:]`. */
  function Fields(line: string): seq<string>
  {
    Split(line, ',')[1..]
  }

  /** What a keyword and its fields ask for: nothing for '/' and unknown
      keywords, otherwise the keyword's attribute and its new value. */
  function Interpret<K(==)>(table: seq<(string, K)>, conv: Conversions, kindOf: K -> Kind,
                            keyword: string, fields: seq<string>): (r: Result<Option<(K, Value)>>)
    ensures r == Ok(None) <==> Lookup(table, keyword).None?
    ensures r.Ok? && r.value.Some? ==>
      Lookup(table, keyword) == Some(r.value.value.0) &&
      HasKind(r.value.value.1, kindOf(r.value.value.0))
  {
    match Lookup(table, keyword)
    case None => Ok(None)
    case Some(k) =>
      match ParseField(conv, kindOf(k), fields)
      case Err(e) => Err(e)
      case Ok(v) => Ok(Some((k, v)))
  }

  /** What one line asks for. */
  function ParseLine<K(==)>(table: seq<(string, K)>, conv: Conversions, kindOf: K -> Kind,
                            line: string): Result<Option<(K, Value)>>
  {
    Interpret(table, conv, kindOf, Keyword(line), Fields(line))
  }

  /** What one line asks of the reader: an error, nothing, or an attribute
      and its new value. */
  type Request<K> = Result<Option<(K, Value)>>

  /** The request of every line of the file. */
  function Requests<K(==)>(table: seq<(string, K)>, conv: Conversions, kindOf: K -> Kind,
                           lines: seq<string>): (r: seq<Request<K>>)
    ensures |r| == |lines|
  {
    seq(|lines|, j requires 0 <= j < |lines| => ParseLine(table, conv, kindOf, lines[j]))
  }

  /** The reading loop from request i on, over the attributes as they stand
      before it: the first error stops it, and every attribute request
      overwrites that attribute. */
  function ApplyFrom<K(==)>(attrs: map<K, Value>, reqs: seq<Request<K>>, i: nat)
    : (r: Result<map<K, Value>>)
    requires i <= |reqs|
    ensures r.Ok? ==> attrs.Keys <= r.value.Keys
    decreases |reqs| - i
  {
    if i == |reqs| then Ok(attrs)
    else
      match reqs[i]
      case Err(e) => Err(e)
      case Ok(None) => ApplyFrom(attrs, reqs, i + 1)
      case Ok(Some(kv)) => ApplyFrom(attrs[kv.0 := kv.1], reqs, i + 1)
  }

  /** The attributes as they stand when the reading loop stops, from
      request i on: at the end of the file, or at the first error, with
      every request before it applied (the readers set each attribute as
      its line is read). */
  function Reached<K(==)>(attrs: map<K, Value>, reqs: seq<Request<K>>, i: nat): (r: map<K, Value>)
    requires i <= |reqs|
    ensures ApplyFrom(attrs, reqs, i).Ok? ==> r == ApplyFrom(attrs, reqs, i).value
    ensures attrs.Keys <= r.Keys
    decreases |reqs| - i
  {
    if i == |reqs| then attrs
    else
      match reqs[i]
      case Err(_) => attrs
      case Ok(None) => Reached(attrs, reqs, i + 1)
      case Ok(Some(kv)) => Reached(attrs[kv.0 := kv.1], reqs, i + 1)
  }

  /** When request j is the first error from i on, the loop stops with
      exactly the requests i..j-1 applied. */
  lemma {:induction false} ReachedAtError<K>(attrs: map<K, Value>, reqs: seq<Request<K>>, i: nat, j: nat)
    requires i <= j < |reqs| && reqs[j].Err?
    requires forall k :: i <= k < j ==> reqs[k].Ok?
    ensures ApplyFrom(attrs, reqs[..j], i) == Ok(Reached(attrs, reqs, i))
    ensures ApplyFrom(attrs, reqs, i) == Err(reqs[j].error)
    decreases j - i
  {
    if i < j {
      assert reqs[..j][i] == reqs[i];
      if reqs[i].value.None? {
        ReachedAtError(attrs, reqs, i + 1, j);
      } else {
        var kv := reqs[i].value.value;
        ReachedAtError(attrs[kv.0 := kv.1], reqs, i + 1, j);
      }
    }
  }

  /** Stopping keeps every attribute of its kind and adds no attribute when
      every requested one is already there. */
  lemma {:induction false} ReachedTyped<K>(kindOf: K -> Kind, attrs: map<K, Value>,
                                           reqs: seq<Request<K>>, i: nat)
    requires i <= |reqs| && Typed(kindOf, attrs) && Sound(kindOf, attrs.Keys, reqs)
    ensures Typed(kindOf, Reached(attrs, reqs, i)) && Reached(attrs, reqs, i).Keys == attrs.Keys
    decreases |reqs| - i
  {
    if i < |reqs| && reqs[i].Ok? {
      if reqs[i].value.None? {
        ReachedTyped(kindOf, attrs, reqs, i + 1);
      } else {
        var kv := reqs[i].value.value;
        var next := attrs[kv.0 := kv.1];
        assert next.Keys == attrs.Keys;
        ReachedTyped(kindOf, next, reqs, i + 1);
      }
    }
  }

  /** The line loop of both readers: each line's request applied in turn
      to the attributes, stopping at the first error; `reached` is the
      attributes as the loop leaves them. */
  method ApplyLines<K(==)>(table: seq<(string, K)>, conv: Conversions, kindOf: K -> Kind,
                           attrs0: map<K, Value>, lines: seq<string>)
    returns (r: Result<map<K, Value>>, reached: map<K, Value>)
    ensures r == ApplyFrom(attrs0, Requests(table, conv, kindOf, lines), 0)
    ensures reached == Reached(attrs0, Requests(table, conv, kindOf, lines), 0)
  {
    ghost var reqs := Requests(table, conv, kindOf, lines);
    var attrs := attrs0;
    var i := 0;
    while i < |lines|
      invariant 0 <= i <= |lines| == |reqs|
      invariant ApplyFrom(attrs, reqs, i) == ApplyFrom(attrs0, reqs, 0)
      invariant Reached(attrs, reqs, i) == Reached(attrs0, reqs, 0)
    {
      var next := ApplyLine(table, conv, kindOf, lines, reqs, attrs, i);
      if next.Err? {
        return Err(next.error), attrs;
      }
      attrs := next.value;
      i := i + 1;
    }
    return Ok(attrs), attrs;
  }

  /** The body of the line loop: the request of line i applied to the
      attributes, an error ending the loop with them as they are. */
  method ApplyLine<K(==)>(table: seq<(string, K)>, conv: Conversions, kindOf: K -> Kind,
                          lines: seq<string>, ghost reqs: seq<Request<K>>, attrs: map<K, Value>, i: nat)
    returns (r: Result<map<K, Value>>)
    requires reqs == Requests(table, conv, kindOf, lines) && i < |lines|
    ensures r.Err? ==> ApplyFrom(attrs, reqs, i) == Err(r.error) && Reached(attrs, reqs, i) == attrs
    ensures r.Ok? ==> ApplyFrom(attrs, reqs, i) == ApplyFrom(r.value, reqs, i + 1)
    ensures r.Ok? ==> Reached(attrs, reqs, i) == Reached(r.value, reqs, i + 1)
  {
    var req := ParseLine(table, conv, kindOf, lines[i]);
    assert req == reqs[i];
    ApplyFromNext(attrs, reqs, i);
    if req.Err? {
      return Err(req.error);
    }
    if req.value.Some? {
      return Ok(attrs[req.value.value.0 := req.value.value.1]);
    }
    return Ok(attrs);
  }

  /** One request of the reading loop: an error stops it, an attribute
      request overwrites that attribute, and any other line is skipped. */
  lemma ApplyFromNext<K>(attrs: map<K, Value>, reqs: seq<Request<K>>, i: nat)
    requires i < |reqs|
    ensures reqs[i].Err? ==> ApplyFrom(attrs, reqs, i) == Err(reqs[i].error)
    ensures reqs[i] == Ok(None) ==> ApplyFrom(attrs, reqs, i) == ApplyFrom(attrs, reqs, i + 1)
    ensures reqs[i].Ok? && reqs[i].value.Some? ==>
      ApplyFrom(attrs, reqs, i) == ApplyFrom(attrs[reqs[i].value.value.0 := reqs[i].value.value.1], reqs, i + 1)
    ensures reqs[i].Err? ==> Reached(attrs, reqs, i) == attrs
    ensures reqs[i] == Ok(None) ==> Reached(attrs, reqs, i) == Reached(attrs, reqs, i + 1)
    ensures reqs[i].Ok? && reqs[i].value.Some? ==>
      Reached(attrs, reqs, i) == Reached(attrs[reqs[i].value.value.0 := reqs[i].value.value.1], reqs, i + 1)
  {
  }

  /** Every attribute holds a value of its keyword's kind. */
  predicate Typed<K(==)>(kindOf: K -> Kind, attrs: map<K, Value>)
  {
    forall k :: k in attrs ==> HasKind(attrs[k], kindOf(k))
  }

  /** Every attribute request names one of the given attributes with a value
      of its kind. */
  predicate Sound<K(==)>(kindOf: K -> Kind, keys: set<K>, reqs: seq<Request<K>>)
  {
    forall j :: 0 <= j < |reqs| && reqs[j].Ok? && reqs[j].value.Some? ==>
      reqs[j].value.value.0 in keys && HasKind(reqs[j].value.value.1, kindOf(reqs[j].value.value.0))
  }

  /** The attributes of a keyword table. */
  function TableKeys<K(==)>(table: seq<(string, K)>): set<K>
  {
    set j | 0 <= j < |table| :: table[j].1
  }

  /** The requests of a file only name the table's attributes, each with a
      value of its kind. */
  lemma RequestsSound<K>(table: seq<(string, K)>, conv: Conversions, kindOf: K -> Kind,
                         lines: seq<string>)
    ensures Sound(kindOf, TableKeys(table), Requests(table, conv, kindOf, lines))
  {
    var reqs := Requests(table, conv, kindOf, lines);
    forall j | 0 <= j < |reqs| && reqs[j].Ok? && reqs[j].value.Some?
      ensures reqs[j].value.value.0 in TableKeys(table)
    {
      var k := reqs[j].value.value.0;
      var n :| 0 <= n < |table| && table[n] == (Keyword(lines[j]), k);
      assert table[n].1 == k;
    }
  }

  /** Reading keeps every attribute of its kind, and adds no attribute when
      every requested one is already there. */
  lemma {:induction false} ApplyFromTyped<K>(kindOf: K -> Kind, attrs: map<K, Value>,
                                             reqs: seq<Request<K>>, i: nat)
    requires i <= |reqs| && Typed(kindOf, attrs) && Sound(kindOf, attrs.Keys, reqs)
    ensures var r := ApplyFrom(attrs, reqs, i);
      r.Ok? ==> Typed(kindOf, r.value) && r.value.Keys == attrs.Keys
    decreases |reqs| - i
  {
    if i < |reqs| && reqs[i].Ok? {
      if reqs[i].value.None? {
        ApplyFromTyped(kindOf, attrs, reqs, i + 1);
      } else {
        var kv := reqs[i].value.value;
        var next := attrs[kv.0 := kv.1];
        assert next.Keys == attrs.Keys;
        ApplyFromTyped(kindOf, next, reqs, i + 1);
      }
    }
  }

  /** Whether a request sets attribute k. */
  predicate Sets<K(==)>(req: Request<K>, k: K)
  {
    req.Ok? && req.value.Some? && req.value.value.0 == k
  }

  /** An attribute that no request from i on sets keeps its value. */
  lemma {:induction false} ApplyFromUntouched<K>(attrs: map<K, Value>, reqs: seq<Request<K>>,
                                                 i: nat, k: K)
    requires i <= |reqs| && k in attrs
    requires forall j :: i <= j < |reqs| ==> !Sets(reqs[j], k)
    ensures var r := ApplyFrom(attrs, reqs, i);
      r.Ok? ==> r.value[k] == attrs[k]
    decreases |reqs| - i
  {
    if i < |reqs| && reqs[i].Ok? {
      if reqs[i].value.None? {
        ApplyFromUntouched(attrs, reqs, i + 1, k);
      } else {
        var kv := reqs[i].value.value;
        ApplyFromUntouched(attrs[kv.0 := kv.1], reqs, i + 1, k);
      }
    }
  }

  /** The last request setting an attribute decides its value. */
  lemma LastRequestWins<K>(attrs: map<K, Value>, reqs: seq<Request<K>>, i: nat, k: K)
    requires i < |reqs| && Sets(reqs[i], k)
    requires forall j :: i < j < |reqs| ==> !Sets(reqs[j], k)
    ensures var r := ApplyFrom(attrs, reqs, i);
      r.Ok? ==> r.value[k] == reqs[i].value.value.1
  {
    var kv := reqs[i].value.value;
    ApplyFromUntouched(attrs[kv.0 := kv.1], reqs, i + 1, k);
  }

  /** Reading fails exactly when some request from i on is an error, and
      then with the first such error. */
  lemma {:induction false} ApplyFromFailsIff<K>(attrs: map<K, Value>, reqs: seq<Request<K>>, i: nat)
    requires i <= |reqs|
    ensures ApplyFrom(attrs, reqs, i).Err? <==> exists j :: i <= j < |reqs| && reqs[j].Err?
    decreases |reqs| - i
  {
    if i < |reqs| && reqs[i].Ok? {
      if reqs[i].value.None? {
        ApplyFromFailsIff(attrs, reqs, i + 1);
      } else {
        var kv := reqs[i].value.value;
        ApplyFromFailsIff(attrs[kv.0 := kv.1], reqs, i + 1);
      }
    }
  }

  /** A line made of a keyword field, a comma and the rest splits into
      that keyword and the fields of the rest. */
  lemma KeywordAndFields(a: string, rest: string)
    requires ',' !in a
    ensures Keyword(a + "," + rest) == Lower(Strip(a))
    ensures Fields(a + "," + rest) == Split(rest, ',')
  {
    SplitAt(a, rest, ',');
  }

  /** Keywords match whatever their case and surrounding blanks: two lines
      that differ only in the spelling of the keyword ask for the same. */
  lemma KeywordIgnoresCase<K>(table: seq<(string, K)>, conv: Conversions, kindOf: K -> Kind,
                              a: string, b: string, rest: string)
    requires ',' !in a && ',' !in b && Lower(Strip(a)) == Lower(Strip(b))
    ensures ParseLine(table, conv, kindOf, a + "," + rest) == ParseLine(table, conv, kindOf, b + "," + rest)
  {
    KeywordAndFields(a, rest);
    KeywordAndFields(b, rest);
  }

  /** A list written out with commas gives its entries back as fields. */
  lemma FieldsOfJoin(name: string, items: seq<string>)
    requires ',' !in name && items != []
    requires forall j :: 0 <= j < |items| ==> ',' !in items[j]
    ensures Fields(name + "," + Join(items, ',')) == items
  {
    KeywordAndFields(name, Join(items, ','));
    SplitJoin(items, ',');
  }

  /** A text list reads back as its entries when they carry no blanks at
      either end, each keeping its case. */
  lemma TextListField(conv: Conversions, items: seq<string>)
    requires items != []
    requires forall j :: 0 <= j < |items| ==> Strip(items[j]) == items[j]
    ensures ParseField(conv, TextListKind, items) == Ok(TextsV(items))
  {
    StripsFixed(items);
    TextListParsed(conv, items);
  }

  /** A list keyword keeps every stripped field. */
  lemma TextListParsed(conv: Conversions, items: seq<string>)
    ensures ParseField(conv, TextListKind, items) == Ok(TextsV(Strips(items)))
  {
  }

  /** Stripping already stripped fields changes none of them. */
  lemma StripsFixed(items: seq<string>)
    requires forall j :: 0 <= j < |items| ==> Strip(items[j]) == items[j]
    ensures Strips(items) == items
  {
    var texts := Strips(items);
    assert forall j :: 0 <= j < |items| ==> texts[j] == items[j];
  }
}

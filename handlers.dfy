/** codegen/tortoise_model/handlers.py: one handler per field type. Each builds a
    declaration template holding one `{}` and fills a fresh `kv` dict in place; the
    registry maps the eight lower-case type tags to them. */
module Handlers {
  import opened Optional
  import opened PyStr
  import opened OrderedDict
  import opened Utils

  /** What a handler returns: `(tpl, kv)`. */
  datatype Decl = Decl(template: string, kv: Items)

  // ---------------------------------------------------------------- the attribute loop every handler runs

  /** `for attr in attrs.split(","): handle_common_attrs(field_arr, kv, attr, opts)`,
      stopping at the first exception. */
  function AttrLoop(fieldArr: seq<string>, kv: Items, attrs: seq<string>, opts: Opts): Run
    requires |fieldArr| >= 2
    decreases |attrs|
  {
    if attrs == [] then Run(kv, None)
    else
      var r := CommonAttrs(fieldArr, kv, Split(attrs[0], ','), opts);
      if r.raised.Some? then r else AttrLoop(fieldArr, r.items, attrs[1..], opts)
  }

  /** Running the handler loop over a prefix that raises nothing, then over the rest,
      is running it over the whole. */
  lemma {:induction false} AttrLoopPrefix(fieldArr: seq<string>, kv: Items, attrs: seq<string>, j: nat, opts: Opts)
    requires |fieldArr| >= 2 && j <= |attrs|
    ensures var pre := AttrLoop(fieldArr, kv, attrs[..j], opts);
      pre.raised.None? ==> AttrLoop(fieldArr, kv, attrs, opts) == AttrLoop(fieldArr, pre.items, attrs[j..], opts)
    decreases j
  {
    if j == 0 {
      assert attrs[0..] == attrs;
    } else {
      var step := CommonAttrs(fieldArr, kv, Split(attrs[0], ','), opts);
      assert attrs[..j][0] == attrs[0] && attrs[..j][1..] == attrs[1..][..j - 1];
      if step.raised.None? {
        AttrLoopPrefix(fieldArr, step.items, attrs[1..], j - 1, opts);
        assert attrs[1..][j - 1..] == attrs[j..];
      }
    }
  }

  /** An `IndexError` raised by piece `j` of the attribute part is swallowed: the
      handler goes on with exactly the dict the loop built from the pieces before `j`. */
  lemma AttrsIndexErrorKeeps(fieldArr: seq<string>, kv: Items, attrString: string, j: nat, opts: Opts)
    requires |fieldArr| >= 2 && j < |Split(attrString, ',')|
    requires var parts := Split(attrString, ',');
      var pre := AttrLoop(fieldArr, kv, parts[..j], opts);
      pre.raised.None? && HandleAttr(fieldArr, pre.items, parts[j], opts).raised == Some(Crash(IndexError))
    ensures Attrs(fieldArr, kv, attrString, opts) == Ok(AttrLoop(fieldArr, kv, Split(attrString, ',')[..j], opts).items)
  {
    var parts := Split(attrString, ',');
    var pre := AttrLoop(fieldArr, kv, parts[..j], opts);
    AttrLoopPrefix(fieldArr, kv, parts, j, opts);
    SplitPartsFree(attrString, ',');
    NoSepSplit(parts[j], ',');
    CommonAttrsSingle(fieldArr, pre.items, parts[j], opts);
    assert parts[j..][0] == parts[j];
    assert AttrLoop(fieldArr, pre.items, parts[j..], opts) == Run(pre.items, Some(Crash(IndexError)));
  }

  /** The same loop inside `try: ... except IndexError: pass`: an `IndexError` ends the
      loop and keeps whatever was stored; any other exception escapes. */
  function Attrs(fieldArr: seq<string>, kv: Items, attrString: string, opts: Opts): (r: Outcome<Items>)
    requires |fieldArr| >= 2
    ensures r.Fail? ==> r.failure != Crash(IndexError)
  {
    Catch(AttrLoop(fieldArr, kv, Split(attrString, ','), opts))
  }

  /** `except IndexError: pass`: an `IndexError` never escapes, and every other
      exception does. */
  function Catch(run: Run): Outcome<Items>
  {
    if run.raised.None? || run.raised == Some(Crash(IndexError)) then Ok(run.items) else Fail(run.raised.value)
  }

  /** Each piece of a split on `,` holds no `,`, so the classifier's own split inside
      the loop is a no-op: the double loop is one loop over the pieces. */
  lemma {:induction false} AttrLoopIsOneLoop(fieldArr: seq<string>, kv: Items, attrs: seq<string>, opts: Opts)
    requires |fieldArr| >= 2
    requires forall i :: 0 <= i < |attrs| ==> ',' !in attrs[i]
    ensures AttrLoop(fieldArr, kv, attrs, opts) == CommonAttrs(fieldArr, kv, attrs, opts)
    decreases |attrs|
  {
    if attrs != [] {
      NoSepSplit(attrs[0], ',');
      CommonAttrsSingle(fieldArr, kv, attrs[0], opts);
      var step := HandleAttr(fieldArr, kv, attrs[0], opts);
      if step.raised.None? {
        assert forall i :: 0 <= i < |attrs[1..]| ==> attrs[1..][i] == attrs[i + 1];
        AttrLoopIsOneLoop(fieldArr, step.items, attrs[1..], opts);
      }
    }
  }

  lemma CommonAttrsSingle(fieldArr: seq<string>, kv: Items, attr: string, opts: Opts)
    requires |fieldArr| >= 2
    ensures CommonAttrs(fieldArr, kv, [attr], opts) == HandleAttr(fieldArr, kv, attr, opts)
  {
    assert [attr][1..] == [];
  }

  /** Reference definition for flags-only options: every piece a flag means all of
      them set to `True`; otherwise the first other piece is rejected. */
  function FlagsOutcome(fieldArr: seq<string>, kv: Items, parts: seq<string>, opts: Opts): Outcome<Items>
    requires |fieldArr| >= 2
  {
    var j := FirstNonFlag(parts);
    if j == |parts| then Ok(SetFlags(kv, parts)) else Fail(Rejection(fieldArr, parts[j], opts))
  }

  /** An accepted flags-only attribute part keeps every key that is not a flag, and so
      a first entry that is not a flag stays first. */
  lemma FlagsOutcomeKeeps(fieldArr: seq<string>, kv: Items, parts: seq<string>, opts: Opts, k: string)
    requires |fieldArr| >= 2
    ensures var o := FlagsOutcome(fieldArr, kv, parts, opts);
      o.Ok? && !IsFlagName(k) ==> Get(o.value, k) == Get(kv, k)
    ensures var o := FlagsOutcome(fieldArr, kv, parts, opts);
      o.Ok? && |kv| >= 1 && !IsFlagName(kv[0].0) ==> |o.value| >= 1 && o.value[0] == kv[0]
  {
    if FlagsOutcome(fieldArr, kv, parts, opts).Ok? {
      FirstNonFlagSpec(parts);
      SetFlagsGet(kv, parts, k);
      if |kv| >= 1 && !IsFlagName(kv[0].0) {
        SetFlagsKeepsFirst(kv, parts);
      }
    }
  }

  /** Setting flags never moves or overwrites a first entry that is not a flag. */
  lemma {:induction false} SetFlagsKeepsFirst(kv: Items, attrs: seq<string>)
    requires |kv| >= 1 && !IsFlagName(kv[0].0)
    requires forall i :: 0 <= i < |attrs| ==> IsFlag(attrs[i])
    ensures |SetFlags(kv, attrs)| >= 1 && SetFlags(kv, attrs)[0] == kv[0]
    decreases |attrs|
  {
    if attrs != [] {
      var kv' := Store(kv, Lower(Strip(attrs[0])), "True");
      assert kv'[0] == kv[0];
      SetFlagsKeepsFirst(kv', attrs[1..]);
    }
  }

  /** With flags-only options the handlers' attribute loop is the reference definition
      over the comma-separated pieces. */
  lemma AttrsFlagsOnly(fieldArr: seq<string>, kv: Items, attrString: string, opts: Opts)
    requires |fieldArr| >= 2 && FlagsOnly(opts)
    ensures Attrs(fieldArr, kv, attrString, opts) == FlagsOutcome(fieldArr, kv, Split(attrString, ','), opts)
  {
    SplitPartsFree(attrString, ',');
    LoopFlagsOnly(fieldArr, kv, Split(attrString, ','), opts);
  }

  lemma LoopFlagsOnly(fieldArr: seq<string>, kv: Items, parts: seq<string>, opts: Opts)
    requires |fieldArr| >= 2 && FlagsOnly(opts)
    requires forall i :: 0 <= i < |parts| ==> ',' !in parts[i]
    ensures var j := FirstNonFlag(parts);
      AttrLoop(fieldArr, kv, parts, opts)
        == if j == |parts| then Run(SetFlags(kv, parts), None)
           else Run(SetFlags(kv, parts[..j]), Some(Rejection(fieldArr, parts[j], opts)))
    ensures Catch(AttrLoop(fieldArr, kv, parts, opts)) == FlagsOutcome(fieldArr, kv, parts, opts)
  {
    AttrLoopIsOneLoop(fieldArr, kv, parts, opts);
    FlagsOnlyRun(fieldArr, kv, parts, opts);
  }

  lemma AttrLoopUnfold(fieldArr: seq<string>, kv: Items, attrs: seq<string>, i: nat, opts: Opts)
    requires |fieldArr| >= 2 && i < |attrs|
    ensures var step := CommonAttrs(fieldArr, kv, Split(attrs[i], ','), opts);
      AttrLoop(fieldArr, kv, attrs[i..], opts)
        == if step.raised.Some? then step else AttrLoop(fieldArr, step.items, attrs[i + 1..], opts)
  {
    assert attrs[i..][1..] == attrs[i + 1..];
  }

  /** The handlers' attribute loop, run on the handler's own dict. */
  method ApplyAttrs(fieldArr: seq<string>, kv: AttrDict, attrString: string, opts: Opts)
    returns (raised: Option<Failure>)
    requires |fieldArr| >= 2 && kv.Valid()
    modifies kv
    ensures kv.Valid()
    ensures (if raised.None? then Ok(kv.items) else Fail(raised.value)) == Attrs(fieldArr, old(kv.items), attrString, opts)
  {
    raised := AttrLoopOver(fieldArr, kv, Split(attrString, ','), opts);
    if raised == Some(Crash(IndexError)) {
      // except IndexError: pass
      raised := None;
    }
  }

  /** The `for` loop over the comma-separated pieces, stopping at the first exception. */
  method AttrLoopOver(fieldArr: seq<string>, kv: AttrDict, attrs: seq<string>, opts: Opts)
    returns (raised: Option<Failure>)
    requires |fieldArr| >= 2 && kv.Valid()
    modifies kv
    ensures kv.Valid()
    ensures Run(kv.items, raised) == AttrLoop(fieldArr, old(kv.items), attrs, opts)
  {
    raised := None;
    var i := 0;
    while i < |attrs|
      invariant 0 <= i <= |attrs| && kv.Valid() && raised == None
      invariant AttrLoop(fieldArr, old(kv.items), attrs, opts) == AttrLoop(fieldArr, kv.items, attrs[i..], opts)
    {
      AttrLoopUnfold(fieldArr, kv.items, attrs, i, opts);
      raised := HandleCommonAttrs(fieldArr, kv, attrs[i], opts);
      if raised.Some? {
        return;
      }
      i := i + 1;
    }
    assert attrs[i..] == [];
  }

  /** A handler's result once its attribute loop has run. */
  function Wrap(tpl: string, attrs: Outcome<Items>): Outcome<Decl>
  {
    match attrs
    case Ok(items) => Ok(Decl(tpl, items))
    case Fail(f) => Fail(f)
  }

  /** What every handler does last: when the field has a part at index `i`, run the
      attribute loop on it over `kv`; the template is never changed, an `IndexError`
      never escapes, and with flags-only options every key that is not a flag keeps
      its value, and a first entry that is not a flag stays first. */
  function WithAttrs(tpl: string, fieldArr: seq<string>, kv: Items, i: nat, opts: Opts): (r: Outcome<Decl>)
    requires i >= 2
    ensures r.Ok? ==> r.value.template == tpl
    ensures |fieldArr| <= i ==> r == Ok(Decl(tpl, kv))
    ensures r.Fail? ==> r.failure != Crash(IndexError)
    ensures FlagsOnly(opts) && r.Ok? ==> forall k :: !IsFlagName(k) ==> Get(r.value.kv, k) == Get(kv, k)
    ensures FlagsOnly(opts) && r.Ok? && |kv| >= 1 && !IsFlagName(kv[0].0) ==>
              |r.value.kv| >= 1 && r.value.kv[0] == kv[0]
  {
    if |fieldArr| > i then
      var r := Wrap(tpl, Attrs(fieldArr, kv, fieldArr[i], opts));
      WithAttrsKeeps(tpl, fieldArr, kv, i, opts, r);
      r
    else Ok(Decl(tpl, kv))
  }

  lemma WithAttrsKeeps(tpl: string, fieldArr: seq<string>, kv: Items, i: nat, opts: Opts, r: Outcome<Decl>)
    requires 2 <= i < |fieldArr| && r == Wrap(tpl, Attrs(fieldArr, kv, fieldArr[i], opts))
    ensures FlagsOnly(opts) && r.Ok? ==> forall k :: !IsFlagName(k) ==> Get(r.value.kv, k) == Get(kv, k)
    ensures FlagsOnly(opts) && r.Ok? && |kv| >= 1 && !IsFlagName(kv[0].0) ==>
              |r.value.kv| >= 1 && r.value.kv[0] == kv[0]
  {
    if FlagsOnly(opts) && r.Ok? {
      var parts := Split(fieldArr[i], ',');
      AttrsFlagsOnly(fieldArr, kv, fieldArr[i], opts);
      forall k | !IsFlagName(k) ensures Get(r.value.kv, k) == Get(kv, k) {
        FlagsOutcomeKeeps(fieldArr, kv, parts, opts, k);
      }
      FlagsOutcomeKeeps(fieldArr, kv, parts, opts, "");
    }
  }

  // ---------------------------------------------------------------- templates

  /** The declaration up to its argument list: `<name> = fields.<Kind>Field(`. */
  function DeclPrefix(name: string, kind: string): string
  {
    name + " = fields." + kind + "Field("
  }

  lemma DeclPrefixNoBraces(name: string, kind: string)
    requires NoBraces(name) && NoBraces(kind)
    ensures NoBraces(DeclPrefix(name, kind))
  {
    assert NoBraces(" = fields.") && NoBraces("Field(");
  }

  /** `f'{field_arr[0]} = ' + 'fields.<Kind>Field({})'` */
  function FieldTemplate(name: string, kind: string): string
  {
    DeclPrefix(name, kind) + "{})"
  }

  /** A scalar template has exactly one `{}` when the name and kind are brace-free,
      and formatting puts the argument between the parentheses. */
  lemma FieldTemplateHoles(name: string, kind: string)
    requires NoBraces(name) && NoBraces(kind)
    ensures Holes(FieldTemplate(name, kind), 1)
    ensures forall a :: Format(FieldTemplate(name, kind), [a]) == DeclPrefix(name, kind) + a + ")"
  {
    var p := DeclPrefix(name, kind);
    assert NoBraces(" = fields.") && NoBraces("Field(");
    assert NoBraces(p);
    assert FieldTemplate(name, kind) == p + "{}" + ")" by {
      assert "{})" == "{}" + ")";
    }
    FormatOne(p, ")", "");
    forall a ensures Format(FieldTemplate(name, kind), [a]) == p + a + ")" {
      FormatOne(p, ")", a);
    }
  }

  // ---------------------------------------------------------------- char

  /** The regular expressions the handlers pass where a dict of options is expected. */
  const CharDefault: string := "^default=\\w+$"
  const IntDefault: string := "^default=[\\+\\-]?\\d+$"
  const FloatDefault: string := "^default=[\\+\\-]?\\d+\\.\\d+$"

  /** None of the regex strings contains `default_expr` or `custom_attrs` (none has an
      underscore), so the classifier never looks for a default: for every handler
      passing one, only `null` and `unique` are accepted. */
  lemma HandlerPatternsAreFlagsOnly()
    ensures FlagsOnly(Pattern(CharDefault)) && FlagsOnly(Pattern(IntDefault)) && FlagsOnly(Pattern(FloatDefault))
  {
    forall p | p == CharDefault || p == IntDefault || p == FloatDefault
      ensures !Contains(p, "default_expr") && !Contains(p, "custom_attrs")
    {
      assert '_' !in p;
      if Contains(p, "default_expr") { ContainsChars(p, "default_expr", '_'); }
      if Contains(p, "custom_attrs") { ContainsChars(p, "custom_attrs", '_'); }
    }
  }

  /** The value stored under `length`: the third part verbatim, or 255. */
  function CharLength(fieldArr: seq<string>): string
  {
    if |fieldArr| > 2 then fieldArr[2] else "255"
  }

  /** `handle_char`: `length` is the first key, holding the third part verbatim (even
      when empty) or 255, and the fourth part is classified with the char regex. */
  function CharSpec(fieldArr: seq<string>): Outcome<Decl>
    requires |fieldArr| >= 1
  {
    WithAttrs(FieldTemplate(fieldArr[0], "Char"), fieldArr, [("length", CharLength(fieldArr))], 3, Pattern(CharDefault))
  }

  /** `length` is always the first key, holding the third part verbatim or 255. */
  lemma CharLengthFirst(fieldArr: seq<string>)
    requires |fieldArr| >= 1
    ensures var r := CharSpec(fieldArr);
      r.Ok? ==> r.value.template == FieldTemplate(fieldArr[0], "Char")
                && |r.value.kv| >= 1 && r.value.kv[0] == ("length", CharLength(fieldArr))
  {
    HandlerPatternsAreFlagsOnly();
  }

  method HandleChar(fieldArr: seq<string>) returns (r: Outcome<Decl>)
    requires |fieldArr| >= 1
    ensures r == CharSpec(fieldArr)
    ensures r.Ok? ==> UniqueKeys(r.value.kv)
  {
    var tpl := FieldTemplate(fieldArr[0], "Char");
    var kv := new AttrDict();
    if |fieldArr| > 2 {
      kv.Put("length", fieldArr[2]);
    } else {
      kv.Put("length", "255");
    }
    if |fieldArr| > 3 {
      var raised := ApplyAttrs(fieldArr, kv, fieldArr[3], Pattern(CharDefault));
      if raised.Some? {
        return Fail(raised.value);
      }
    }
    r := Ok(Decl(tpl, kv.items));
  }

  /** A fourth part is accepted exactly when all its pieces are flags, which are set
      after `length`; any other piece, a `default=...` included, is rejected with the
      not-found diagnostic. */
  lemma CharAttrs(fieldArr: seq<string>)
    requires |fieldArr| > 3
    ensures CharSpec(fieldArr)
            == Wrap(FieldTemplate(fieldArr[0], "Char"),
                    FlagsOutcome(fieldArr, [("length", fieldArr[2])], Split(fieldArr[3], ','), Pattern(CharDefault)))
  {
    HandlerPatternsAreFlagsOnly();
    AttrsFlagsOnly(fieldArr, [("length", fieldArr[2])], fieldArr[3], Pattern(CharDefault));
  }

  // ---------------------------------------------------------------- int, float, decimal, text

  /** The shared shape of `handle_int`, `handle_float`, `handle_decimal` and
      `handle_text_field`: a fixed template and attributes from the third part. */
  function ScalarSpec(fieldArr: seq<string>, kind: string, opts: Opts): Outcome<Decl>
    requires |fieldArr| >= 1
  {
    WithAttrs(FieldTemplate(fieldArr[0], kind), fieldArr, [], 2, opts)
  }

  method HandleScalar(fieldArr: seq<string>, kind: string, opts: Opts) returns (r: Outcome<Decl>)
    requires |fieldArr| >= 1
    ensures r == ScalarSpec(fieldArr, kind, opts)
    ensures r.Ok? ==> UniqueKeys(r.value.kv)
  {
    var tpl := FieldTemplate(fieldArr[0], kind);
    var kv := new AttrDict();
    if |fieldArr| > 2 {
      var raised := ApplyAttrs(fieldArr, kv, fieldArr[2], opts);
      if raised.Some? {
        return Fail(raised.value);
      }
    }
    r := Ok(Decl(tpl, kv.items));
  }

  /** `handle_int` */
  method HandleInt(fieldArr: seq<string>) returns (r: Outcome<Decl>)
    requires |fieldArr| >= 1
    ensures r == ScalarSpec(fieldArr, "Int", Pattern(IntDefault))
    ensures r.Ok? ==> UniqueKeys(r.value.kv)
  {
    r := HandleScalar(fieldArr, "Int", Pattern(IntDefault));
  }

  /** `handle_float` */
  method HandleFloat(fieldArr: seq<string>) returns (r: Outcome<Decl>)
    requires |fieldArr| >= 1
    ensures r == ScalarSpec(fieldArr, "Float", Pattern(FloatDefault))
    ensures r.Ok? ==> UniqueKeys(r.value.kv)
  {
    r := HandleScalar(fieldArr, "Float", Pattern(FloatDefault));
  }

  /** `handle_decimal` (it passes the float regex) */
  method HandleDecimal(fieldArr: seq<string>) returns (r: Outcome<Decl>)
    requires |fieldArr| >= 1
    ensures r == ScalarSpec(fieldArr, "Decimal", Pattern(FloatDefault))
    ensures r.Ok? ==> UniqueKeys(r.value.kv)
  {
    r := HandleScalar(fieldArr, "Decimal", Pattern(FloatDefault));
  }

  /** `handle_text_field` (it passes `None`) */
  method HandleTextField(fieldArr: seq<string>) returns (r: Outcome<Decl>)
    requires |fieldArr| >= 1
    ensures r == ScalarSpec(fieldArr, "Text", NoOpts)
    ensures r.Ok? ==> UniqueKeys(r.value.kv)
  {
    r := HandleScalar(fieldArr, "Text", NoOpts);
  }

  /** Without a third part the dict is empty. A third part is accepted exactly when
      every piece is a flag; otherwise the first other piece fails: with the not-found
      diagnostic for int, float and decimal, and with a `TypeError` for text. */
  lemma ScalarAttrs(fieldArr: seq<string>, kind: string, opts: Opts)
    requires |fieldArr| >= 1
    requires opts == Pattern(IntDefault) || opts == Pattern(FloatDefault) || opts == NoOpts
    ensures |fieldArr| <= 2 ==> ScalarSpec(fieldArr, kind, opts) == Ok(Decl(FieldTemplate(fieldArr[0], kind), []))
    ensures |fieldArr| > 2 ==>
              ScalarSpec(fieldArr, kind, opts)
              == Wrap(FieldTemplate(fieldArr[0], kind), FlagsOutcome(fieldArr, [], Split(fieldArr[2], ','), opts))
  {
    if |fieldArr| > 2 {
      HandlerPatternsAreFlagsOnly();
      AttrsFlagsOnly(fieldArr, [], fieldArr[2], opts);
    }
  }

  // ---------------------------------------------------------------- datetime

  predicate IsAutoFlag(attr: string)
  {
    attr == "auto_now_add" || attr == "auto_now"
  }

  /** The datetime loop: store `True` under each piece that is exactly an auto flag. */
  function AutoFlags(kv: Items, attrs: seq<string>): Items
    decreases |attrs|
  {
    if attrs == [] then kv
    else AutoFlags(if IsAutoFlag(attrs[0]) then Store(kv, attrs[0], "True") else kv, attrs[1..])
  }

  /** The dict after the datetime loop holds, besides what it held, exactly the auto
      flags among the pieces, each `True`. */
  lemma {:induction false} AutoFlagsGet(kv: Items, attrs: seq<string>, k: string)
    ensures Get(AutoFlags(kv, attrs), k) == if IsAutoFlag(k) && k in attrs then Some("True") else Get(kv, k)
    decreases |attrs|
  {
    if attrs != [] {
      var kv' := if IsAutoFlag(attrs[0]) then Store(kv, attrs[0], "True") else kv;
      AutoFlagsGet(kv', attrs[1..], k);
      if IsAutoFlag(attrs[0]) {
        StoreGet(kv, attrs[0], "True", k);
      }
      assert k in attrs <==> k == attrs[0] || k in attrs[1..];
    }
  }

  /** `handle_datetime_field`: it never fails, and records an auto flag exactly when
      some lower-cased piece of the third part is that flag, unstripped. */
  function DatetimeSpec(fieldArr: seq<string>): (r: Outcome<Decl>)
    requires |fieldArr| >= 1
    ensures r.Ok? && r.value.template == FieldTemplate(fieldArr[0], "Datetime")
    ensures forall k ::
              Get(r.value.kv, k)
              == (if |fieldArr| > 2 && IsAutoFlag(k) && k in Split(Lower(fieldArr[2]), ',') then Some("True") else None)
  {
    var tpl := FieldTemplate(fieldArr[0], "Datetime");
    if |fieldArr| > 2 then
      var attrs := Split(Lower(fieldArr[2]), ',');
      assert forall k :: Get(AutoFlags([], attrs), k) == if IsAutoFlag(k) && k in attrs then Some("True") else None by {
        forall k ensures Get(AutoFlags([], attrs), k) == if IsAutoFlag(k) && k in attrs then Some("True") else None {
          AutoFlagsGet([], attrs, k);
        }
      }
      Ok(Decl(tpl, AutoFlags([], attrs)))
    else Ok(Decl(tpl, []))
  }

  method HandleDatetimeField(fieldArr: seq<string>) returns (r: Outcome<Decl>)
    requires |fieldArr| >= 1
    ensures r == DatetimeSpec(fieldArr)
    ensures r.Ok? ==> UniqueKeys(r.value.kv)
  {
    var tpl := FieldTemplate(fieldArr[0], "Datetime");
    var kv := new AttrDict();
    if |fieldArr| > 2 {
      var attrs := Split(Lower(fieldArr[2]), ',');
      var i := 0;
      while i < |attrs|
        invariant 0 <= i <= |attrs| && kv.Valid()
        invariant AutoFlags([], attrs) == AutoFlags(kv.items, attrs[i..])
      {
        assert attrs[i..][1..] == attrs[i + 1..];
        if attrs[i] == "auto_now_add" || attrs[i] == "auto_now" {
          kv.Put(attrs[i], "True");
        }
        i := i + 1;
      }
      assert attrs[i..] == [];
    }
    r := Ok(Decl(tpl, kv.items));
  }

  // ---------------------------------------------------------------- fk, m2m

  datatype Relation = ForeignKey | ManyToMany

  function RelationKind(rel: Relation): string
  {
    match rel
    case ForeignKey => "ForeignKey"
    case ManyToMany => "ManyToMany"
  }

  /** `f'{field_arr[0]} = ' + 'fields.<Kind>Field({}, {})'`; the handler fills the first
      field with the quoted target and the second with a fresh `{}`. */
  function RelationTemplate(rel: Relation, name: string): (tpl: string)
    requires NoBraces(name)
    ensures Holes(tpl, 2)
    ensures forall a :: Format(tpl, [a, "{}"]) == DeclPrefix(name, RelationKind(rel)) + a + ", {})"
  {
    assert NoBraces(" = fields.") && NoBraces("Field(") && NoBraces(RelationKind(rel));
    TwoHoles(DeclPrefix(name, RelationKind(rel)));
    DeclPrefix(name, RelationKind(rel)) + "{}, {})"
  }

  lemma TwoHoles(p: string)
    requires NoBraces(p)
    ensures Holes(p + "{}, {})", 2)
    ensures forall a :: Format(p + "{}, {})", [a, "{}"]) == p + a + ", {})"
  {
    var q := ", " + "{}" + ")";
    assert p + "{}, {})" == p + "{}" + q && ", {})" == q by {
      assert "{}, {})" == "{}" + q;
    }
    assert Holes(q, 1) && Format(q, ["{}"]) == q by {
      assert NoBraces(", ") && NoBraces(")");
      FormatOne(", ", ")", "{}");
    }
    assert Holes(p + "{}" + q, 2) by {
      FormatSplice(p, q, "", ["{}"]);
    }
    forall a ensures Format(p + "{}" + q, [a, "{}"]) == p + a + q {
      FormatSplice(p, q, a, ["{}"]);
      assert [a] + ["{}"] == [a, "{}"];
    }
  }

  /** The exit for a relation field without a target model. */
  function MissingTarget(rel: Relation, name: string): Failure
  {
    match rel
    case ForeignKey => Exit(FkTargetMissing(name))
    case ManyToMany => Exit(M2mTargetMissing(name))
  }

  /** First comment line: the relation type, naming the target (quoted for m2m). */
  function TargetLine(rel: Relation, target: string): string
  {
    TargetHead(rel) + target + TargetTail(rel)
  }

  /** `# type: fields.ForeignKeyRelation[` or `# type: fields.ManyToManyRelation["`, the
      fixed text before the target in handlers.py lines 127 and 160. The literals are
      written in pieces so that the facts about their characters stay cheap to prove. */
  function TargetHead(rel: Relation): string
  {
    match rel
    case ForeignKey => "# type: " + "fields." + "ForeignKey" + "Relation["
    case ManyToMany => "# type: " + "fields." + "ManyToMany" + "Relation[\""
  }

  function TargetTail(rel: Relation): string
  {
    match rel
    case ForeignKey => "]"
    case ManyToMany => "\"]"
  }

  /** Second comment line: the reverse relation type, naming the enclosing model. */
  function ReverseLine(modelName: string): string
  {
    ReverseHead() + modelName + "\"]"
  }

  /** `# type for reverse relation: fields.ReverseRelation["` (handlers.py lines 126 and
      159), written in pieces as above. */
  function ReverseHead(): string
  {
    "# type for " + "reverse " + "relation: " + "fields." + "Reverse" + "Relation[\""
  }

  function TargetComment(rel: Relation, target: string): string
  {
    TargetLine(rel, target) + "\n"
  }

  function ReverseComment(modelName: string): string
  {
    ReverseLine(modelName) + "\n"
  }

  /** `related_name` (the quoted plural of the lower-cased model name) and, for m2m,
      `through` (the quoted `<model>_<field>` in lower case), before any attribute. */
  function RelationKv(rel: Relation, modelName: string, name: string): (kv: Items)
    ensures Get(kv, "related_name") == Some(JsonQuote(Pluralize(Lower(modelName))))
    ensures Get(kv, "through") == if rel == ManyToMany then Some(JsonQuote(Lower(modelName) + "_" + Lower(name))) else None
    ensures forall k :: k != "related_name" && k != "through" ==> Get(kv, k) == None
  {
    var related := JsonQuote(Pluralize(Lower(modelName)));
    var through := JsonQuote(Lower(modelName) + "_" + Lower(name));
    var kv := Store([], "related_name", related);
    assert forall k :: Get(kv, k) == if k == "related_name" then Some(related) else None by {
      forall k ensures Get(kv, k) == if k == "related_name" then Some(related) else None {
        StoreGet([], "related_name", related, k);
      }
    }
    match rel
    case ForeignKey => kv
    case ManyToMany =>
      assert forall k :: k != "through" ==> Get(Store(kv, "through", through), k) == Get(kv, k) by {
        forall k | k != "through" ensures Get(Store(kv, "through", through), k) == Get(kv, k) {
          StoreGet(kv, "through", through, k);
        }
      }
      StoreGet(kv, "through", through, "related_name");
      Store(kv, "through", through)
  }

  /** `handle_fk_field` and `handle_m2m_field`: the target is the third part and
      extra attributes are the fourth. */
  function RelationSpec(rel: Relation, modelName: string, fieldArr: seq<string>): Outcome<Decl>
    requires |fieldArr| >= 1 && NoBraces(fieldArr[0])
  {
    if |fieldArr| <= 2 then Fail(MissingTarget(rel, fieldArr[0]))
    else if !IsIdentifier(fieldArr[2]) then Fail(Crash(NameError))
    else
      var decl := Format(RelationTemplate(rel, fieldArr[0]), [JsonQuote(fieldArr[2]), "{}"]);
      WithAttrs(TargetComment(rel, fieldArr[2]) + ReverseComment(modelName) + decl,
                fieldArr, RelationKv(rel, modelName, fieldArr[0]), 3, NoOpts)
  }

  /** The fixed parts of the comment lines hold no brace and no line break. */
  lemma TargetPiecesNoBraces(rel: Relation)
    ensures NoBraces(TargetHead(rel)) && NoBraces(TargetTail(rel))
  {
    assert NoBraces("# type: ") && NoBraces("fields.");
    match rel
    case ForeignKey => assert NoBraces("ForeignKey") && NoBraces("Relation[");
    case ManyToMany => assert NoBraces("ManyToMany") && NoBraces("Relation[\"");
  }

  lemma TargetPiecesOneLine(rel: Relation)
    ensures '\n' !in TargetHead(rel) && '\n' !in TargetTail(rel)
  {
    assert '\n' !in "# type: " && '\n' !in "fields.";
    match rel
    case ForeignKey => assert '\n' !in "ForeignKey" && '\n' !in "Relation[";
    case ManyToMany => assert '\n' !in "ManyToMany" && '\n' !in "Relation[\"";
  }

  lemma ReverseHeadNoBraces()
    ensures NoBraces(ReverseHead())
  {
    assert NoBraces("# type for ") && NoBraces("reverse ") && NoBraces("relation: ");
    assert NoBraces("fields.") && NoBraces("Reverse") && NoBraces("Relation[\"");
  }

  lemma ReverseHeadOneLine()
    ensures '\n' !in ReverseHead()
  {
    assert '\n' !in "# type for " && '\n' !in "reverse " && '\n' !in "relation: ";
    assert '\n' !in "fields." && '\n' !in "Reverse" && '\n' !in "Relation[\"";
  }

  /** The comment lines add no replacement field and no line break of their own. */
  lemma TargetLineChars(rel: Relation, target: string)
    ensures NoBraces(target) ==> NoBraces(TargetLine(rel, target)) && NoBraces(TargetComment(rel, target))
    ensures '\n' !in target ==> '\n' !in TargetLine(rel, target)
  {
    TargetPiecesNoBraces(rel);
    TargetPiecesOneLine(rel);
    assert NoBraces("\n");
  }

  lemma ReverseLineChars(modelName: string)
    ensures NoBraces(modelName) ==> NoBraces(ReverseLine(modelName)) && NoBraces(ReverseComment(modelName))
    ensures '\n' !in modelName ==> '\n' !in ReverseLine(modelName)
  {
    ReverseHeadNoBraces();
    ReverseHeadOneLine();
    assert NoBraces("\"]") && '\n' !in "\"]" && NoBraces("\n");
  }

  lemma CommentsNoBraces(rel: Relation, target: string, modelName: string)
    requires NoBraces(target) && NoBraces(modelName)
    ensures NoBraces(TargetComment(rel, target) + ReverseComment(modelName))
  {
    TargetLineChars(rel, target);
    ReverseLineChars(modelName);
  }

  /** The declaration once the target is filled in: the target in double quotes in
      the first slot and one `{}` left for the attributes. */
  lemma RelationDecl(rel: Relation, name: string, target: string)
    requires NoBraces(name) && IsIdentifier(target)
    ensures Format(RelationTemplate(rel, name), [JsonQuote(target), "{}"])
            == DeclPrefix(name, RelationKind(rel)) + "\"" + target + "\", {})"
    ensures Holes(DeclPrefix(name, RelationKind(rel)) + "\"" + target + "\", {})", 1)
  {
    IdentifierIsJsonPlain(target);
    JsonQuotePlain(target);
    var d := DeclPrefix(name, RelationKind(rel));
    assert d + ("\"" + target + "\"") + ", {})" == d + "\"" + target + "\", {})";
    var p := d + "\"" + target + "\", ";
    assert NoBraces(p) by {
      assert NoBraces(RelationKind(rel));
      DeclPrefixNoBraces(name, RelationKind(rel));
      assert NoBraces("\"") && NoBraces("\", ");
    }
    assert d + "\"" + target + "\", {})" == p + "{}" + ")";
    FormatOne(p, ")", "");
  }

  /** A missing target exits naming the field; a target that is not an identifier
      reaches `re.search`, and `re` is not imported in handlers.py. Otherwise the
      template is the two comment lines followed by the declaration, with the target
      in double quotes and one `{}` left, its only replacement field when the model
      name is brace-free. */
  lemma RelationShape(rel: Relation, modelName: string, fieldArr: seq<string>)
    requires |fieldArr| >= 1 && NoBraces(fieldArr[0])
    ensures var r := RelationSpec(rel, modelName, fieldArr);
      (|fieldArr| <= 2 ==> r == Fail(MissingTarget(rel, fieldArr[0])))
      && (|fieldArr| > 2 && !IsIdentifier(fieldArr[2]) ==> r == Fail(Crash(NameError)))
      && (r.Fail? ==> r.failure != Crash(IndexError))
    ensures var r := RelationSpec(rel, modelName, fieldArr);
      r.Ok? ==>
        |fieldArr| > 2 && IsIdentifier(fieldArr[2])
        && r.value.template
           == TargetComment(rel, fieldArr[2]) + ReverseComment(modelName)
              + (DeclPrefix(fieldArr[0], RelationKind(rel)) + "\"" + fieldArr[2] + "\", {})")
        && (NoBraces(modelName) ==> Holes(r.value.template, 1))
  {
    if |fieldArr| > 2 && IsIdentifier(fieldArr[2]) {
      var t := fieldArr[2];
      RelationDecl(rel, fieldArr[0], t);
      if NoBraces(modelName) {
        IdentifierIsJsonPlain(t);
        CommentsNoBraces(rel, t, modelName);
        FormatPrefix(TargetComment(rel, t) + ReverseComment(modelName),
                     DeclPrefix(fieldArr[0], RelationKind(rel)) + "\"" + t + "\", {})", [""]);
      }
    }
  }

  /** The dict keeps `related_name` (and, for m2m, `through`) whatever attributes
      follow, since neither is a flag. */
  lemma RelationKeys(rel: Relation, modelName: string, fieldArr: seq<string>)
    requires |fieldArr| >= 1 && NoBraces(fieldArr[0])
    ensures var r := RelationSpec(rel, modelName, fieldArr);
      r.Ok? ==> Get(r.value.kv, "related_name") == Some(JsonQuote(Pluralize(Lower(modelName))))
                && Get(r.value.kv, "through")
                   == if rel == ManyToMany then Some(JsonQuote(Lower(modelName) + "_" + Lower(fieldArr[0]))) else None
  {
    assert FlagsOnly(NoOpts);
    assert !IsFlagName("related_name") && !IsFlagName("through");
    if |fieldArr| > 2 && IsIdentifier(fieldArr[2]) {
      var decl := Format(RelationTemplate(rel, fieldArr[0]), [JsonQuote(fieldArr[2]), "{}"]);
      var tpl := TargetComment(rel, fieldArr[2]) + ReverseComment(modelName) + decl;
      assert RelationSpec(rel, modelName, fieldArr)
             == WithAttrs(tpl, fieldArr, RelationKv(rel, modelName, fieldArr[0]), 3, NoOpts);
    }
  }

  method HandleRelation(rel: Relation, modelName: string, fieldArr: seq<string>) returns (r: Outcome<Decl>)
    requires |fieldArr| >= 1 && NoBraces(fieldArr[0])
    ensures r == RelationSpec(rel, modelName, fieldArr)
    ensures r.Ok? ==> UniqueKeys(r.value.kv)
  {
    var tpl := RelationTemplate(rel, fieldArr[0]);
    var kv := new AttrDict();
    if |fieldArr| <= 2 {
      return Fail(MissingTarget(rel, fieldArr[0]));
    }
    var relationOn := fieldArr[2];
    if !IsIdentifier(relationOn) {
      return Fail(Crash(NameError));
    }
    tpl := Format(tpl, [JsonQuote(relationOn), "{}"]);
    kv.Put("related_name", JsonQuote(Pluralize(Lower(modelName))));
    if rel == ManyToMany {
      kv.Put("through", JsonQuote(Lower(modelName) + "_" + Lower(fieldArr[0])));
    }
    assert kv.items == RelationKv(rel, modelName, fieldArr[0]);
    if |fieldArr| > 3 {
      var raised := ApplyAttrs(fieldArr, kv, fieldArr[3], NoOpts);
      if raised.Some? {
        return Fail(raised.value);
      }
    }
    ghost var decl := tpl;
    tpl := ReverseComment(modelName) + tpl;
    tpl := TargetComment(rel, relationOn) + tpl;
    PrependTwice(TargetComment(rel, relationOn), ReverseComment(modelName), decl);
    r := Ok(Decl(tpl, kv.items));
  }

  /** `handle_fk_field` */
  method HandleFkField(modelName: string, fieldArr: seq<string>) returns (r: Outcome<Decl>)
    requires |fieldArr| >= 1 && NoBraces(fieldArr[0])
    ensures r == RelationSpec(ForeignKey, modelName, fieldArr)
    ensures r.Ok? ==> UniqueKeys(r.value.kv)
  {
    r := HandleRelation(ForeignKey, modelName, fieldArr);
  }

  /** `handle_m2m_field` */
  method HandleM2mField(modelName: string, fieldArr: seq<string>) returns (r: Outcome<Decl>)
    requires |fieldArr| >= 1 && NoBraces(fieldArr[0])
    ensures r == RelationSpec(ManyToMany, modelName, fieldArr)
    ensures r.Ok? ==> UniqueKeys(r.value.kv)
  {
    r := HandleRelation(ManyToMany, modelName, fieldArr);
  }

  /** Extra attributes on a relation are accepted exactly when every piece is a flag;
      any other piece crashes (`'default_expr' in None`). */
  lemma RelationAttrs(rel: Relation, modelName: string, fieldArr: seq<string>)
    requires |fieldArr| > 3 && NoBraces(fieldArr[0]) && IsIdentifier(fieldArr[2])
    ensures var o := FlagsOutcome(fieldArr, RelationKv(rel, modelName, fieldArr[0]), Split(fieldArr[3], ','), NoOpts);
      RelationSpec(rel, modelName, fieldArr).Ok? == o.Ok?
      && (o.Ok? ==> RelationSpec(rel, modelName, fieldArr).value.kv == o.value)
      && (o.Fail? ==> RelationSpec(rel, modelName, fieldArr) == Fail(Crash(TypeError)))
  {
    AttrsFlagsOnly(fieldArr, RelationKv(rel, modelName, fieldArr[0]), fieldArr[3], NoOpts);
  }

  // ---------------------------------------------------------------- registry

  datatype Handler = IntHandler | FloatHandler | DecimalHandler | CharHandler | TextHandler
                   | DatetimeHandler | FkHandler | M2mHandler

  /** `parsers`: the eight lower-case type tags. */
  const Parsers: map<string, Handler> := map[
    "int" := IntHandler, "float" := FloatHandler, "decimal" := DecimalHandler, "char" := CharHandler,
    "text" := TextHandler, "datetime" := DatetimeHandler, "fk" := FkHandler, "m2m" := M2mHandler]

  predicate IsRelation(h: Handler)
  {
    h == FkHandler || h == M2mHandler
  }

  /** Exactly these eight tags are registered, there is no `bool`, and the two relation
      handlers are the ones under `fk` and `m2m`. */
  lemma RegistryKeys()
    ensures Parsers.Keys == {"int", "float", "decimal", "char", "text", "datetime", "fk", "m2m"}
    ensures "bool" !in Parsers
    ensures forall t :: t in Parsers ==> (IsRelation(Parsers[t]) <==> t == "fk" || t == "m2m")
  {
  }

  /** The `Field` kind each non-relation handler declares. */
  function ScalarKind(h: Handler): string
    requires !IsRelation(h)
  {
    match h
    case IntHandler => "Int"
    case FloatHandler => "Float"
    case DecimalHandler => "Decimal"
    case CharHandler => "Char"
    case TextHandler => "Text"
    case DatetimeHandler => "Datetime"
  }

  /** Calls the registered handler; relation handlers also get the model name. Every
      template a handler returns has exactly one `{}` (given a brace-free model name),
      and no handler lets an `IndexError` escape. */
  function Dispatch(h: Handler, modelName: string, fieldArr: seq<string>): Outcome<Decl>
    requires |fieldArr| >= 1 && NoBraces(fieldArr[0])
  {
    match h
    case IntHandler => ScalarSpec(fieldArr, "Int", Pattern(IntDefault))
    case FloatHandler => ScalarSpec(fieldArr, "Float", Pattern(FloatDefault))
    case DecimalHandler => ScalarSpec(fieldArr, "Decimal", Pattern(FloatDefault))
    case CharHandler => CharSpec(fieldArr)
    case TextHandler => ScalarSpec(fieldArr, "Text", NoOpts)
    case DatetimeHandler => DatetimeSpec(fieldArr)
    case FkHandler => RelationSpec(ForeignKey, modelName, fieldArr)
    case M2mHandler => RelationSpec(ManyToMany, modelName, fieldArr)
  }

  /** Every handler declares its own kind of field under the field name, leaves exactly
      one `{}` in its template (given a brace-free model name), and lets no
      `IndexError` escape. */
  lemma DispatchShape(h: Handler, modelName: string, fieldArr: seq<string>)
    requires |fieldArr| >= 1 && NoBraces(fieldArr[0])
    ensures var r := Dispatch(h, modelName, fieldArr);
      r.Ok? && !IsRelation(h) ==> r.value.template == FieldTemplate(fieldArr[0], ScalarKind(h))
    ensures var r := Dispatch(h, modelName, fieldArr);
      r.Ok? && NoBraces(modelName) ==> Holes(r.value.template, 1)
    ensures var r := Dispatch(h, modelName, fieldArr);
      r.Fail? ==> r.failure != Crash(IndexError)
  {
    if IsRelation(h) {
      RelationShape(if h == FkHandler then ForeignKey else ManyToMany, modelName, fieldArr);
    } else {
      ScalarDispatchShape(h, modelName, fieldArr);
    }
  }

  /** The non-relation part of `DispatchShape`. */
  lemma ScalarDispatchShape(h: Handler, modelName: string, fieldArr: seq<string>)
    requires |fieldArr| >= 1 && NoBraces(fieldArr[0]) && !IsRelation(h)
    ensures var r := Dispatch(h, modelName, fieldArr);
      r.Ok? ==> r.value.template == FieldTemplate(fieldArr[0], ScalarKind(h)) && Holes(r.value.template, 1)
    ensures var r := Dispatch(h, modelName, fieldArr);
      r.Fail? ==> r.failure != Crash(IndexError)
  {
    if h == CharHandler {
      CharLengthFirst(fieldArr);
    }
    assert NoBraces(ScalarKind(h));
    FieldTemplateHoles(fieldArr[0], ScalarKind(h));
  }
}

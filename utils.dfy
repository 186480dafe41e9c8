/** codegen/tortoise_model/utils.py: the prompt validator, keyword rendering,
    pluralisation, the failure exit, and the attribute classifier shared by the
    handlers (`handle_common_attrs`), which fills the caller's `kv` dict in place. */
module Utils {
  import opened Optional
  import opened PyStr
  import opened OrderedDict

  // ---------------------------------------------------------------- failures

  /** The Python exceptions the code can raise and not catch. */
  datatype Exception = TypeError | NameError | IndexError

  /** The messages handed to `graceful_exit`; `Text` renders each one exactly. */
  datatype Diagnostic =
    | AttrNotFound(attr: string, fieldType: string, fieldName: string)
    | FkTargetMissing(fieldName: string)
    | M2mTargetMissing(fieldName: string)
    | InvalidFieldName(fieldName: string)
    | MissingFieldType(fieldName: string)
    | UnknownFieldType(fieldName: string, tag: string)

  /** How a parse ends when it does not return: `graceful_exit(msg)` prints `msg` and
      raises `SystemExit`, which no `except IndexError` catches; any other exception
      escapes as a crash. */
  datatype Failure = Exit(diagnostic: Diagnostic) | Crash(exception: Exception)

  datatype Outcome<+T> = Ok(value: T) | Fail(failure: Failure)

  // ---------------------------------------------------------------- small helpers

  /** The prompt validator for the model name: non-blank after stripping, and no
      space inside. */
  predicate ValidateText(x: string)
  {
    Strip(x) != [] && ' ' !in Strip(x)
  }

  /** Every character up to `j` is whitespace. */
  ghost predicate BlankUpTo(x: string, j: int)
    requires 0 <= j < |x|
  {
    forall i :: 0 <= i <= j ==> IsSpace(x[i])
  }

  /** Every character from `j` on is whitespace. */
  ghost predicate BlankFrom(x: string, j: int)
    requires 0 <= j < |x|
  {
    forall i :: j <= i < |x| ==> IsSpace(x[i])
  }

  /** A name passes the validator exactly when it has a non-whitespace character and
      every space in it belongs to the leading or the trailing whitespace. */
  lemma ValidateTextMeaning(x: string)
    ensures ValidateText(x) <==>
              (exists j :: 0 <= j < |x| && !IsSpace(x[j]))
              && forall j :: 0 <= j < |x| && x[j] == ' ' ==> BlankUpTo(x, j) || BlankFrom(x, j)
  {
    if ValidateText(x) {
      ValidImpliesOuterSpaces(x);
    } else if Strip(x) != [] {
      InnerSpaceRejected(x);
    } else {
      StripEmpty(x);
    }
  }

  lemma ValidImpliesOuterSpaces(x: string)
    requires ValidateText(x)
    ensures exists j :: 0 <= j < |x| && !IsSpace(x[j])
    ensures forall j :: 0 <= j < |x| && x[j] == ' ' ==> BlankUpTo(x, j) || BlankFrom(x, j)
  {
    StripBounds(x);
    var a, b := StripStart(x), StripEnd(x);
    assert !IsSpace(x[a]);
    forall j | a <= j < b ensures x[j] != ' ' {
      assert x[j] == Strip(x)[j - a];
    }
  }

  lemma InnerSpaceRejected(x: string)
    requires Strip(x) != [] && ' ' in Strip(x)
    ensures exists j :: 0 <= j < |x| && x[j] == ' ' && !BlankUpTo(x, j) && !BlankFrom(x, j)
  {
    StripBounds(x);
    var a, b := StripStart(x), StripEnd(x);
    var t :| a <= t < b && x[t] == ' ';
    assert !BlankUpTo(x, t) by {
      assert a <= t && !IsSpace(x[a]);
    }
    assert !BlankFrom(x, t) by {
      assert t <= b - 1 < |x| && !IsSpace(x[b - 1]);
    }
  }

  /** Renders one keyword argument: `f"{k}={v}"`. */
  function TupleToStr(kv: (string, string)): string
  {
    kv.0 + "=" + kv.1
  }

  /** A rendered keyword argument splits back at `=` into its name and its value,
      provided neither holds an `=`. */
  lemma TupleToStrSplits(k: string, v: string)
    requires '=' !in k && '=' !in v
    ensures Split(TupleToStr((k, v)), '=') == [k, v]
  {
    assert Join([k, v], '=') == k + "=" + v;
    SplitJoin([k, v], '=');
  }

  predicate EndsWithS(t: string)
  {
    |t| > 0 && t[|t| - 1] == 's'
  }

  /** Adds an `s` unless the text already ends in one. */
  function Pluralize(txt: string): (r: string)
    ensures EndsWithS(r)
    ensures txt <= r && |r| <= |txt| + 1
    ensures EndsWithS(txt) <==> r == txt
  {
    if EndsWithS(txt) then txt else txt + "s"
  }

  /** Pluralising twice changes nothing more. */
  lemma PluralizeIdempotent(txt: string)
    ensures Pluralize(Pluralize(txt)) == Pluralize(txt)
  {
  }

  // ---------------------------------------------------------------- attribute classifier

  /** What a handler passes as `opts`. The handlers pass a bare regex string or `None`
      where the classifier expects a dict; `Dict` is the shape the classifier is
      written for, with the regex search left abstract. */
  datatype Opts =
    | NoOpts
    | Pattern(regex: string)
    | Dict(defaultExpr: Option<string -> bool>, defaultFn: Option<string -> string>, customAttrs: map<string, string>)

  const Esc: char := 27 as char
  const Bold: string := [Esc] + "[1m"
  const Reset: string := [Esc] + "[0;0m"

  /** The printed text of each diagnostic. The not-found diagnostic names the
      attribute as typed (stripped), the type part as typed and the field name, in bold. */
  function Text(d: Diagnostic): string
  {
    match d
    case AttrNotFound(attr, fieldType, fieldName) =>
      "\n" + Bold + "Attribute " + attr + " was not found for " + fieldType + " in " + fieldName
      + ". Use it without quotations!" + Reset
    case FkTargetMissing(name) => "Please provide a model name for your fk on " + name
    case M2mTargetMissing(name) => "Please provide a model name for your m2m field on " + name
    case InvalidFieldName(name) => "Field name " + name + " is invalid!"
    case MissingFieldType(name) => "you forgot to provide the type for " + name + "!"
    case UnknownFieldType(name, tag) => name + "'s field type of " + tag + " does not exist!"
  }

  /** The not-found diagnostic for `attr` in the field `field_arr`. */
  function NotFound(attr: string, fieldArr: seq<string>): Failure
    requires |fieldArr| >= 2
  {
    Exit(AttrNotFound(attr, fieldArr[1], fieldArr[0]))
  }

  /** The state of `kv` after a run of the classifier, and the exception that ended
      the run, if any. */
  datatype Run = Run(items: Items, raised: Option<Failure>)

  predicate IsFlagName(low: string)
  {
    low == "null" || low == "unique"
  }

  /** One iteration of the classifier loop on one raw attribute. */
  function HandleAttr(fieldArr: seq<string>, kv: Items, raw: string, opts: Opts): Run
    requires |fieldArr| >= 2
  {
    var attr := Strip(raw);
    var low := Lower(attr);
    if IsFlagName(low) then Run(Store(kv, low, "True"), None)
    else
      match opts
      case NoOpts =>
        // `'default_expr' in None`
        Run(kv, Some(Crash(TypeError)))
      case Pattern(p) =>
        // `'default_expr' in p` and `'custom_attrs' in p` are substring tests; when one
        // holds, indexing the string with a string key raises
        if Contains(p, "default_expr") || Contains(p, "custom_attrs") then Run(kv, Some(Crash(TypeError)))
        else Run(kv, Some(NotFound(attr, fieldArr)))
      case Dict(matcher, fn, custom) =>
        if matcher.Some? && matcher.value(attr) then
          var parts := Split(attr, '=');
          if |parts| < 2 then Run(kv, Some(Crash(IndexError)))
          else
            var value := if fn.Some? then fn.value(parts[1]) else JsonQuote(parts[1]);
            Run(Store(kv, "default", value), None)
        else if low in custom then Run(Store(kv, low, custom[low]), None)
        else Run(kv, Some(NotFound(attr, fieldArr)))
  }

  /** The classifier loop over already-split attributes, left to right, stopping at
      the first exception; what was stored before it stays stored. */
  function CommonAttrs(fieldArr: seq<string>, kv: Items, attrs: seq<string>, opts: Opts): Run
    requires |fieldArr| >= 2
    decreases |attrs|
  {
    if attrs == [] then Run(kv, None)
    else
      var r := HandleAttr(fieldArr, kv, attrs[0], opts);
      if r.raised.Some? then r else CommonAttrs(fieldArr, r.items, attrs[1..], opts)
  }

  lemma CommonAttrsUnfold(fieldArr: seq<string>, kv: Items, attrs: seq<string>, i: nat, opts: Opts)
    requires |fieldArr| >= 2 && i < |attrs|
    ensures var step := HandleAttr(fieldArr, kv, attrs[i], opts);
      CommonAttrs(fieldArr, kv, attrs[i..], opts)
        == if step.raised.Some? then step else CommonAttrs(fieldArr, step.items, attrs[i + 1..], opts)
  {
    assert attrs[i..][1..] == attrs[i + 1..];
  }

  /** `handle_common_attrs(field_arr, kv, attr_string, opts)`: classifies every
      comma-separated attribute and stores into the caller's dict. */
  method HandleCommonAttrs(fieldArr: seq<string>, kv: AttrDict, attrString: string, opts: Opts)
    returns (raised: Option<Failure>)
    requires |fieldArr| >= 2 && kv.Valid()
    modifies kv
    ensures kv.Valid()
    ensures Run(kv.items, raised) == CommonAttrs(fieldArr, old(kv.items), Split(attrString, ','), opts)
  {
    raised := ClassifyAll(fieldArr, kv, Split(attrString, ','), opts);
  }

  /** The classifier loop of `handle_common_attrs` over the split attributes. */
  method ClassifyAll(fieldArr: seq<string>, kv: AttrDict, attrs: seq<string>, opts: Opts)
    returns (raised: Option<Failure>)
    requires |fieldArr| >= 2 && kv.Valid()
    modifies kv
    ensures kv.Valid()
    ensures Run(kv.items, raised) == CommonAttrs(fieldArr, old(kv.items), attrs, opts)
  {
    raised := None;
    var i := 0;
    while i < |attrs|
      invariant 0 <= i <= |attrs| && kv.Valid() && raised == None
      invariant CommonAttrs(fieldArr, old(kv.items), attrs, opts) == CommonAttrs(fieldArr, kv.items, attrs[i..], opts)
    {
      raised := ClassifyNext(fieldArr, kv, attrs, i, opts);
      if raised.Some? {
        return;
      }
      i := i + 1;
    }
    assert attrs[i..] == [];
  }

  /** One pass of that loop: what remains of the run after attribute `i`. */
  method ClassifyNext(fieldArr: seq<string>, kv: AttrDict, attrs: seq<string>, i: nat, opts: Opts)
    returns (raised: Option<Failure>)
    requires |fieldArr| >= 2 && kv.Valid() && i < |attrs|
    modifies kv
    ensures kv.Valid()
    ensures CommonAttrs(fieldArr, old(kv.items), attrs[i..], opts)
            == if raised.Some? then Run(kv.items, raised) else CommonAttrs(fieldArr, kv.items, attrs[i + 1..], opts)
  {
    CommonAttrsUnfold(fieldArr, kv.items, attrs, i, opts);
    raised := ClassifyAttr(fieldArr, kv, attrs[i], opts);
  }

  /** The body of the classifier loop for one attribute. */
  method ClassifyAttr(fieldArr: seq<string>, kv: AttrDict, raw: string, opts: Opts)
    returns (raised: Option<Failure>)
    requires |fieldArr| >= 2 && kv.Valid()
    modifies kv
    ensures kv.Valid()
    ensures Run(kv.items, raised) == HandleAttr(fieldArr, old(kv.items), raw, opts)
  {
    raised := None;
    var attr := Strip(raw);
    var attrLower := Lower(attr);
    if attrLower == "null" || attrLower == "unique" {
      kv.Put(attrLower, "True");
      return;
    }
    match opts {
      case NoOpts =>
        raised := Some(Crash(TypeError));
      case Pattern(p) =>
        if Contains(p, "default_expr") || Contains(p, "custom_attrs") {
          raised := Some(Crash(TypeError));
        } else {
          raised := Some(NotFound(attr, fieldArr));
        }
      case Dict(matcher, fn, custom) =>
        if matcher.Some? && matcher.value(attr) {
          var parts := Split(attr, '=');
          if |parts| < 2 {
            raised := Some(Crash(IndexError));
          } else {
            var value := if fn.Some? then fn.value(parts[1]) else JsonQuote(parts[1]);
            kv.Put("default", value);
          }
        } else if attrLower in custom {
          kv.Put(attrLower, custom[attrLower]);
        } else {
          raised := Some(NotFound(attr, fieldArr));
        }
    }
  }

  // ---------------------------------------------------------------- what the classifier does

  /** `null` and `unique`, in any case and surrounded by whitespace, set that flag to
      `True` and change no other key. */
  lemma HandleAttrFlag(fieldArr: seq<string>, kv: Items, raw: string, opts: Opts, k: string)
    requires |fieldArr| >= 2
    requires IsFlagName(Lower(Strip(raw)))
    ensures HandleAttr(fieldArr, kv, raw, opts).raised == None
    ensures Get(HandleAttr(fieldArr, kv, raw, opts).items, Lower(Strip(raw))) == Some("True")
    ensures k != Lower(Strip(raw)) ==> Get(HandleAttr(fieldArr, kv, raw, opts).items, k) == Get(kv, k)
  {
    StoreGet(kv, Lower(Strip(raw)), "True", k);
  }

  /** An attribute the default matcher accepts sets `default` to the default function
      (JSON quoting when none is given) of the text between its first and second `=`. */
  lemma HandleAttrDefault(fieldArr: seq<string>, kv: Items, raw: string, opts: Opts, k: nat, m: nat)
    requires |fieldArr| >= 2 && opts.Dict? && opts.defaultExpr.Some?
    requires !IsFlagName(Lower(Strip(raw))) && opts.defaultExpr.value(Strip(raw))
    requires var attr := Strip(raw);
      k < m <= |attr| && attr[k] == '='
      && (forall j :: 0 <= j < k ==> attr[j] != '=')
      && (forall j :: k < j < m ==> attr[j] != '=')
      && (m == |attr| || attr[m] == '=')
    ensures var attr := Strip(raw);
      var value := attr[k + 1..m];
      HandleAttr(fieldArr, kv, raw, opts)
        == Run(Store(kv, "default", if opts.defaultFn.Some? then opts.defaultFn.value(value) else JsonQuote(value)), None)
  {
    SplitSecond(Strip(raw), '=', k, m);
  }

  /** A matched default without any `=` raises `IndexError` and leaves `kv` alone. */
  lemma HandleAttrDefaultWithoutValue(fieldArr: seq<string>, kv: Items, raw: string, opts: Opts)
    requires |fieldArr| >= 2 && opts.Dict? && opts.defaultExpr.Some?
    requires !IsFlagName(Lower(Strip(raw))) && opts.defaultExpr.value(Strip(raw))
    requires '=' !in Strip(raw)
    ensures HandleAttr(fieldArr, kv, raw, opts) == Run(kv, Some(Crash(IndexError)))
  {
  }

  /** A custom attribute stores its configured value under the lower-cased name. */
  lemma HandleAttrCustom(fieldArr: seq<string>, kv: Items, raw: string, opts: Opts)
    requires |fieldArr| >= 2 && opts.Dict?
    requires !IsFlagName(Lower(Strip(raw)))
    requires opts.defaultExpr.None? || !opts.defaultExpr.value(Strip(raw))
    requires Lower(Strip(raw)) in opts.customAttrs
    ensures HandleAttr(fieldArr, kv, raw, opts).raised == None
    ensures Get(HandleAttr(fieldArr, kv, raw, opts).items, Lower(Strip(raw)))
            == Some(opts.customAttrs[Lower(Strip(raw))])
  {
    StoreGet(kv, Lower(Strip(raw)), opts.customAttrs[Lower(Strip(raw))], "");
  }

  /** Options under which only `null` and `unique` can ever be accepted: `None`, or a
      string in which neither `default_expr` nor `custom_attrs` occurs. */
  predicate FlagsOnly(opts: Opts)
  {
    opts.NoOpts? || (opts.Pattern? && !Contains(opts.regex, "default_expr") && !Contains(opts.regex, "custom_attrs"))
  }

  /** What such options do with an attribute that is not a flag: a crash on `None`
      (`'default_expr' in None`), the not-found diagnostic on a string. */
  function Rejection(fieldArr: seq<string>, raw: string, opts: Opts): Failure
    requires |fieldArr| >= 2
  {
    if opts.NoOpts? then Crash(TypeError) else NotFound(Strip(raw), fieldArr)
  }

  predicate IsFlag(raw: string)
  {
    IsFlagName(Lower(Strip(raw)))
  }

  /** Reference definition: set every flag of `attrs` to `True`, in order. */
  function SetFlags(kv: Items, attrs: seq<string>): Items
    decreases |attrs|
  {
    if attrs == [] then kv else SetFlags(Store(kv, Lower(Strip(attrs[0])), "True"), attrs[1..])
  }

  /** The position of the first attribute that is not a flag (`|attrs|` when all are). */
  function FirstNonFlag(attrs: seq<string>): (j: nat)
    ensures j <= |attrs|
    decreases |attrs|
  {
    if attrs == [] || !IsFlag(attrs[0]) then 0 else 1 + FirstNonFlag(attrs[1..])
  }

  /** Every attribute before that position is a flag, and the one at it is not. */
  lemma {:induction false} FirstNonFlagSpec(attrs: seq<string>)
    ensures var j := FirstNonFlag(attrs);
      (forall i :: 0 <= i < j ==> IsFlag(attrs[i])) && (j < |attrs| ==> !IsFlag(attrs[j]))
    decreases |attrs|
  {
    if attrs != [] && IsFlag(attrs[0]) {
      var j := FirstNonFlag(attrs[1..]);
      FirstNonFlagSpec(attrs[1..]);
      forall i | 1 <= i < 1 + j ensures IsFlag(attrs[i]) {
        assert attrs[i] == attrs[1..][i - 1];
      }
      assert 1 + j < |attrs| ==> attrs[1 + j] == attrs[1..][j];
    }
  }

  /** Under flags-only options the classifier sets the flags up to the first
      attribute that is not a flag and stops there with that attribute's rejection;
      with no such attribute it sets them all and succeeds. */
  lemma {:induction false} FlagsOnlyRun(fieldArr: seq<string>, kv: Items, attrs: seq<string>, opts: Opts)
    requires |fieldArr| >= 2 && FlagsOnly(opts)
    ensures var j := FirstNonFlag(attrs);
      CommonAttrs(fieldArr, kv, attrs, opts)
        == if j == |attrs| then Run(SetFlags(kv, attrs), None)
           else Run(SetFlags(kv, attrs[..j]), Some(Rejection(fieldArr, attrs[j], opts)))
    decreases |attrs|
  {
    if attrs == [] {
      return;
    }
    HandleAttrFlagsOnly(fieldArr, kv, attrs[0], opts);
    if !IsFlag(attrs[0]) {
      assert attrs[..0] == [];
    } else {
      var kv' := Store(kv, Lower(Strip(attrs[0])), "True");
      var rest := attrs[1..];
      FlagsOnlyRun(fieldArr, kv', rest, opts);
      var j := FirstNonFlag(rest);
      assert FirstNonFlag(attrs) == 1 + j;
      if j < |rest| {
        SetFlagsPrefix(kv, attrs, j);
        assert attrs[1 + j] == rest[j];
      }
    }
  }

  /** Setting the flags of a prefix starts with its first attribute. */
  lemma SetFlagsPrefix(kv: Items, attrs: seq<string>, j: nat)
    requires j < |attrs|
    ensures SetFlags(kv, attrs[..j + 1]) == SetFlags(Store(kv, Lower(Strip(attrs[0])), "True"), attrs[1..][..j])
  {
    var pre := attrs[..j + 1];
    assert pre[0] == attrs[0] && pre[1..] == attrs[1..][..j];
  }

  /** Under flags-only options one attribute either sets its flag or is rejected. */
  lemma HandleAttrFlagsOnly(fieldArr: seq<string>, kv: Items, raw: string, opts: Opts)
    requires |fieldArr| >= 2 && FlagsOnly(opts)
    ensures HandleAttr(fieldArr, kv, raw, opts)
            == if IsFlag(raw) then Run(Store(kv, Lower(Strip(raw)), "True"), None)
               else Run(kv, Some(Rejection(fieldArr, raw, opts)))
  {
  }

  /** Under flags-only options a list is accepted exactly when every attribute is a flag. */
  lemma FlagsOnlyAccepts(fieldArr: seq<string>, kv: Items, attrs: seq<string>, opts: Opts)
    requires |fieldArr| >= 2 && FlagsOnly(opts)
    ensures CommonAttrs(fieldArr, kv, attrs, opts).raised.None? <==> forall i :: 0 <= i < |attrs| ==> IsFlag(attrs[i])
  {
    FlagsOnlyRun(fieldArr, kv, attrs, opts);
    FirstNonFlagSpec(attrs);
  }

  /** Setting flags only ever adds `null` or `unique`: every other key keeps its value,
      and every flag named in the list ends up `True`. */
  lemma {:induction false} SetFlagsGet(kv: Items, attrs: seq<string>, k: string)
    requires forall i :: 0 <= i < |attrs| ==> IsFlag(attrs[i])
    ensures !IsFlagName(k) ==> Get(SetFlags(kv, attrs), k) == Get(kv, k)
    ensures (exists i :: 0 <= i < |attrs| && Lower(Strip(attrs[i])) == k) ==> Get(SetFlags(kv, attrs), k) == Some("True")
    decreases |attrs|
  {
    if attrs != [] {
      var kv' := Store(kv, Lower(Strip(attrs[0])), "True");
      SetFlagsGet(kv', attrs[1..], k);
      StoreGet(kv, Lower(Strip(attrs[0])), "True", k);
      if exists i :: 0 <= i < |attrs| && Lower(Strip(attrs[i])) == k {
        var i :| 0 <= i < |attrs| && Lower(Strip(attrs[i])) == k;
        if i > 0 {
          assert attrs[1..][i - 1] == attrs[i];
        } else if !(exists i' :: 0 <= i' < |attrs[1..]| && Lower(Strip(attrs[1..][i'])) == k) {
          SetFlagsKeep(kv', attrs[1..], k);
        }
      }
    }
  }

  /** A key that no flag in the list names keeps its value. */
  lemma {:induction false} SetFlagsKeep(kv: Items, attrs: seq<string>, k: string)
    requires forall i :: 0 <= i < |attrs| ==> Lower(Strip(attrs[i])) != k
    ensures Get(SetFlags(kv, attrs), k) == Get(kv, k)
    decreases |attrs|
  {
    if attrs != [] {
      var kv' := Store(kv, Lower(Strip(attrs[0])), "True");
      SetFlagsKeep(kv', attrs[1..], k);
      StoreGet(kv, Lower(Strip(attrs[0])), "True", k);
    }
  }
}

# Tortoise-ORM field-spec language, modelled in Dafny

The code generator's Tortoise-ORM model generator reads one line of field specs, for
example `title:char:100:null author:fk:Author`. Each space-separated token is
`name:type[:part...]`. The generator turns the line into the indented field
declarations of a model class, plus the list of field names. This project models
that pipeline and proves properties of it:

- `parse_gen_str`: tokenising, the three field checks, dispatch to the handler
  registry, rendering of the `kv` dict into the template, and left-padding
  (module `Gen`, `gen.dfy`);
- the eight type handlers and the `parsers` registry (module `Handlers`, `handlers.dfy`);
- `validate_text`, `tuple_to_str`, `pluralize` and the attribute classifier
  `handle_common_attrs` (module `Utils`, `utils.dfy`). `graceful_exit` becomes a
  failure value that carries its diagnostic (`Failure.Exit`).

Two supporting modules:

- `PyStr` (`pystr.dfy`) models the Python string builtins the code relies on:
  `split` on one character, `join`, `strip`, `lower`, `isidentifier`, substring
  `in`, `str.format` with auto-numbered `{}` fields, and `json.dumps` of a string
  with its default `ensure_ascii` escaping.
- `OrderedDict` (`ordereddict.dfy`) models a Python `dict` as an association list
  in insertion order. Storing under an existing key keeps its position. The
  `AttrDict` class is the dict a handler fills in place.

Every stored value is its rendered text: `True`, `255`, a JSON-quoted string, or
the char field's length part exactly as typed (`title:char:100` stores `100`).

Where the code works step by step, the model does too. The handlers are methods
that fill an `AttrDict` through `Put`, and their loops over attributes are `while`
loops. So are the loop of `handle_common_attrs` and the token loop of
`parse_gen_str`. The list comprehension that indents the lines (gen.py lines 63-64)
is the recursive function `Gen.PadLines`. Each method is proved equal to a specification
function (`CharSpec`, `ScalarSpec`, `DatetimeSpec`, `RelationSpec`, `CommonAttrs`,
`ParseFields`), and the lemmas state what those functions promise.

The model follows the code, including what it does wrong:

- **`opts` is not a dict.** The handlers pass a regex string or `None` where
  `handle_common_attrs` expects a dict of options.
  - With a string, `'default_expr' in opts` is a substring test, and none of the
    handlers' patterns contains it. So `default=...` is rejected with the "was not
    found" diagnostic.
  - With `None` (text, fk, m2m), any attribute other than `null`/`unique` raises
    `TypeError`.
  - The dict shape the classifier was written for is modelled too (`Opts.Dict`),
    with an abstract matcher.
- **`re` is never imported in handlers.py.** A relation target that is not an
  identifier raises `NameError`.
- **Eight types, no `bool`.** The registry holds eight type tags and no `bool`,
  and no handler can reach a `default=` value.
- **Exceptions.** `graceful_exit` raises `SystemExit`, which the handlers'
  `except IndexError` never catches. An `IndexError` raised inside the classifier
  (a matched default with no `=`) is caught by the handler's `try` and ends its
  attribute loop, and what was stored so far stays stored.

## Model

| member | source | states |
|---|---|---|
| PyStr.Split | codegen/tortoise_model/gen.py:30 | `str.split(sep)` gives at least one part, and more than one exactly when the separator occurs |
| PyStr.SplitPartsFree | codegen/tortoise_model/gen.py:33 | no part of a split holds the separator |
| PyStr.JoinSplit | codegen/tortoise_model/gen.py:30 | joining the parts with the separator gives back the input |
| PyStr.SplitJoin | codegen/tortoise_model/gen.py:30 | splitting a join of separator-free parts gives back the parts |
| PyStr.SplitFirst | codegen/tortoise_model/gen.py:33-34 | the first part is the text before the first separator |
| PyStr.SplitSecond | codegen/tortoise_model/utils.py:51 | `split("=")[1]` is the text between the first and the second `=` |
| PyStr.AdjacentSepsGiveEmptyPart | codegen/tortoise_model/gen.py:30 | two adjacent separators give an empty part after the first |
| PyStr.StripEmpty | codegen/tortoise_model/utils.py:15 | `strip()` is empty exactly when every character is whitespace; otherwise it starts and ends with non-whitespace |
| PyStr.StripBounds | codegen/tortoise_model/utils.py:46 | `strip()` is a slice with only whitespace outside it and non-whitespace at its ends |
| PyStr.StripNewline | codegen/tortoise_model/gen.py:59-64 | stripping a trimmed text plus `\n` gives the text |
| PyStr.LowerSpec | codegen/tortoise_model/gen.py:41 | lower-casing keeps the length, turns each ASCII capital into the character 32 code points higher, keeps every other character, and leaves no ASCII capital |
| PyStr.LowerIdempotent | codegen/tortoise_model/gen.py:41 | lower-casing twice is lower-casing once |
| PyStr.FormatSplice | codegen/tortoise_model/handlers.py:112 | `format` puts the first argument in place of the first `{}` and formats the rest |
| PyStr.FormatPrefix | codegen/tortoise_model/handlers.py:126-127 | a brace-free prefix passes through `format` unchanged |
| PyStr.FormatOne | codegen/tortoise_model/gen.py:59 | a template with one `{}` between brace-free parts is filled with its one argument |
| PyStr.JsonQuotePlain | codegen/tortoise_model/handlers.py:112 | `json.dumps` of a plain printable string wraps it in double quotes |
| PyStr.JsonQuotePrintable | codegen/tortoise_model/handlers.py:117 | `json.dumps` output is printable ASCII, so it holds no line break |
| PyStr.IdentifierIsJsonPlain | codegen/tortoise_model/handlers.py:107 | an identifier needs no JSON escaping and holds no brace |
| OrderedDict.Get | codegen/tortoise_model/gen.py:59-60 | the dict model's lookup, used to state what each key of a handler's dict holds: it finds nothing exactly when the key is absent |
| OrderedDict.StoreGet | codegen/tortoise_model/handlers.py:12 | after `kv[k] = v`, `k` holds `v` and every other key is unchanged |
| OrderedDict.StorePlacement | codegen/tortoise_model/gen.py:59-60 | storing under an existing key keeps the key order; a new key goes last |
| OrderedDict.StoreUnique | codegen/tortoise_model/handlers.py:9-14 | storing keeps keys unique and adds no key except the stored one |
| OrderedDict.AttrDict.constructor | codegen/tortoise_model/handlers.py:9 | a new dict is empty |
| OrderedDict.AttrDict.Put | codegen/tortoise_model/utils.py:49 | `kv[k] = v` in place, by the insertion-order rule |
| Utils.ValidateTextMeaning | codegen/tortoise_model/utils.py:14-21 | the validator accepts exactly the texts with a non-whitespace character whose spaces are all leading or trailing |
| Utils.ValidImpliesOuterSpaces | codegen/tortoise_model/utils.py:14-21 | an accepted text has a non-whitespace character, and each space is in the leading or trailing whitespace |
| Utils.InnerSpaceRejected | codegen/tortoise_model/utils.py:18-19 | a space inside the stripped text has non-whitespace on both sides |
| Utils.TupleToStrSplits | codegen/tortoise_model/utils.py:24 | `k=v` splits at `=` back into `k` and `v` when neither holds `=` |
| Utils.Pluralize | codegen/tortoise_model/utils.py:32-36 | the result ends in `s`, extends the input by at most one character, and equals it exactly when the input ends in `s` |
| Utils.PluralizeIdempotent | codegen/tortoise_model/utils.py:32-36 | pluralizing twice is pluralizing once |
| Utils.CommonAttrsUnfold | codegen/tortoise_model/utils.py:45-59 | the classifier loop from position `i` is one step, then the rest unless that step raised |
| Utils.HandleCommonAttrs | codegen/tortoise_model/utils.py:39-59 | the dict after the call and the exception raised are those of the classifier loop over `attr_string.split(",")` |
| Utils.ClassifyAll | codegen/tortoise_model/utils.py:45-59 | the loop leaves the dict and the exception of `CommonAttrs` |
| Utils.ClassifyNext | codegen/tortoise_model/utils.py:46-59 | one iteration either raises and ends the loop, or leaves the rest of the loop to run on the new dict |
| Utils.ClassifyAttr | codegen/tortoise_model/utils.py:46-59 | one attribute updates the dict in place, or raises, as `HandleAttr` says |
| Utils.HandleAttrFlag | codegen/tortoise_model/utils.py:46-49 | `null`/`unique`, after stripping and lower-casing, stores `True` under the lower-cased name, changes no other key, and raises nothing |
| Utils.HandleAttrDefault | codegen/tortoise_model/utils.py:50-53 | an attribute the default matcher accepts stores `fn` (by default JSON quoting) of the text between the first two `=` under `default` |
| Utils.HandleAttrDefaultWithoutValue | codegen/tortoise_model/utils.py:50-51 | a matched default without `=` raises `IndexError` and leaves the dict unchanged |
| Utils.HandleAttrCustom | codegen/tortoise_model/utils.py:54-55 | a custom attribute stores its configured value under its lower-cased name |
| Utils.FirstNonFlagSpec | codegen/tortoise_model/utils.py:45-59 | every attribute before the returned position is a flag, and the one at it is not |
| Utils.FlagsOnlyRun | codegen/tortoise_model/utils.py:45-59 | with flags-only options, the loop sets the flags before the first non-flag, then fails with that attribute's rejection, or succeeds if there is none |
| Utils.HandleAttrFlagsOnly | codegen/tortoise_model/utils.py:48-59 | with flags-only options, one attribute is stored as `True` when it is a flag, and rejected otherwise (`TypeError` for `None`, not found for a string) |
| Utils.FlagsOnlyAccepts | codegen/tortoise_model/utils.py:45-59 | with flags-only options, the loop raises nothing exactly when every attribute is a flag |
| Utils.SetFlagsGet | codegen/tortoise_model/utils.py:48-49 | after setting flags, every flag named holds `True` and every non-flag key is unchanged |
| Utils.SetFlagsKeep | codegen/tortoise_model/utils.py:48-49 | a key that no attribute names keeps its value |
| Handlers.Attrs | codegen/tortoise_model/handlers.py:30-35 | the handler's attribute loop inside `try` never lets an `IndexError` escape |
| Handlers.AttrLoopPrefix | codegen/tortoise_model/handlers.py:32-33 | running the loop over a prefix that raises nothing and then over the rest is running it over the whole |
| Handlers.AttrsIndexErrorKeeps | codegen/tortoise_model/handlers.py:30-35 | an `IndexError` raised by piece `j` is swallowed, and the handler keeps exactly the dict the loop built from the pieces before `j` |
| Handlers.AttrLoopIsOneLoop | codegen/tortoise_model/handlers.py:32-33 | the classifier's own split of a `,`-free piece is a no-op, so the nested loops are one loop over the pieces |
| Handlers.AttrLoopUnfold | codegen/tortoise_model/handlers.py:32-33 | the handler loop from position `i` is one classifier call, then the rest unless it raised |
| Handlers.AttrsFlagsOnly | codegen/tortoise_model/handlers.py:30-35 | with flags-only options, a handler's attribute part gives `FlagsOutcome` of its pieces |
| Handlers.LoopFlagsOnly | codegen/tortoise_model/handlers.py:32-35 | with flags-only options, the handler loop sets the flags before the first non-flag and then raises its rejection |
| Handlers.FlagsOutcomeKeeps | codegen/tortoise_model/handlers.py:16-21 | when the attributes are accepted, every non-flag key keeps its value and a non-flag first entry stays first |
| Handlers.SetFlagsKeepsFirst | codegen/tortoise_model/handlers.py:11-21 | setting flags never moves a non-flag first entry |
| Handlers.ApplyAttrs | codegen/tortoise_model/handlers.py:30-35 | the in-place loop over `attrs.split(",")` inside `try` leaves the dict and the failure that `Attrs` gives |
| Handlers.AttrLoopOver | codegen/tortoise_model/handlers.py:32-33 | the loop over the pieces leaves the dict and the exception of `AttrLoop` |
| Handlers.WithAttrs | codegen/tortoise_model/handlers.py:16-23 | the attribute part never changes the template, and an absent part leaves the dict as it is. No `IndexError` escapes. With flags-only options, non-flag keys keep their values |
| Handlers.FieldTemplateHoles | codegen/tortoise_model/handlers.py:8 | `<name> = fields.<Kind>Field({})` has exactly one `{}`, and formatting puts the argument between the parentheses |
| Handlers.HandlerPatternsAreFlagsOnly | codegen/tortoise_model/utils.py:50-54 | none of the handlers' regex strings contains `default_expr` or `custom_attrs`, so only `null` and `unique` are accepted with them |
| Handlers.CharLengthFirst | codegen/tortoise_model/handlers.py:11-14 | a char field's first entry is `length`: the third part verbatim (even when empty), or 255 |
| Handlers.HandleChar | codegen/tortoise_model/handlers.py:7-23 | `handle_char` returns what `CharSpec` says; the dict it returns names each key once |
| Handlers.CharAttrs | codegen/tortoise_model/handlers.py:16-21 | a char field's fourth part is accepted exactly when all its pieces are flags; `default=...` is rejected as not found |
| Handlers.HandleScalar | codegen/tortoise_model/handlers.py:26-37 | the shared int/float/decimal/text handler returns what `ScalarSpec` says; the dict it returns names each key once |
| Handlers.HandleInt | codegen/tortoise_model/handlers.py:26-37 | `handle_int` declares an `IntField` and classifies the third part with the int regex |
| Handlers.HandleFloat | codegen/tortoise_model/handlers.py:40-52 | `handle_float` declares a `FloatField` and classifies with the float regex |
| Handlers.HandleDecimal | codegen/tortoise_model/handlers.py:55-67 | `handle_decimal` declares a `DecimalField` and classifies with the float regex |
| Handlers.HandleTextField | codegen/tortoise_model/handlers.py:86-97 | `handle_text_field` declares a `TextField` and classifies with `None` |
| Handlers.ScalarAttrs | codegen/tortoise_model/handlers.py:30-35 | an int/float/decimal/text field without a third part gets an empty dict; a third part is accepted exactly when all its pieces are flags |
| Handlers.AutoFlagsGet | codegen/tortoise_model/handlers.py:77-79 | the datetime loop stores `True` exactly under the pieces that are `auto_now_add` or `auto_now` |
| Handlers.DatetimeSpec | codegen/tortoise_model/handlers.py:70-83 | a datetime field never fails. Its dict holds `True` under each auto flag found among the lower-cased, unstripped pieces of the third part, and nothing else |
| Handlers.HandleDatetimeField | codegen/tortoise_model/handlers.py:70-83 | `handle_datetime_field` fills its dict in place as `DatetimeSpec` says; the dict it returns names each key once |
| Handlers.RelationTemplate | codegen/tortoise_model/handlers.py:101 | the relation template has two `{}`. Filling them with the target and a fresh `{}` gives the declaration with the target in the first slot |
| Handlers.RelationKv | codegen/tortoise_model/handlers.py:149-150 | `related_name` is the quoted plural of the lower-cased model name. For m2m, `through` is the quoted `<model>_<field>` in lower case. There are no other keys |
| Handlers.TargetLineChars | codegen/tortoise_model/handlers.py:127 | the relation type comment adds no brace and no line break beyond those in the target |
| Handlers.ReverseLineChars | codegen/tortoise_model/handlers.py:126 | the reverse relation comment adds no brace and no line break beyond those in the model name |
| Handlers.CommentsNoBraces | codegen/tortoise_model/handlers.py:126-127 | the two comment lines hold no brace, so one `{}` remains in the template |
| Handlers.RelationDecl | codegen/tortoise_model/handlers.py:112 | the declaration names the identifier target quoted in the first slot and keeps exactly one `{}` |
| Handlers.RelationShape | codegen/tortoise_model/handlers.py:104-129 | with no third part the field fails with the fk or m2m "provide a model name" exit; a non-identifier target gives `NameError`. An accepted template is the two comment lines plus the declaration, with one `{}` |
| Handlers.RelationKeys | codegen/tortoise_model/handlers.py:149-157 | an accepted fk/m2m dict keeps `related_name` (and for m2m `through`) whatever attributes follow |
| Handlers.HandleRelation | codegen/tortoise_model/handlers.py:132-162 | the shared relation handler returns what `RelationSpec` says; the dict it returns names each key once |
| Handlers.HandleFkField | codegen/tortoise_model/handlers.py:100-129 | `handle_fk_field` is the relation handler for foreign keys |
| Handlers.HandleM2mField | codegen/tortoise_model/handlers.py:132-162 | `handle_m2m_field` is the relation handler for many-to-many |
| Handlers.RelationAttrs | codegen/tortoise_model/handlers.py:152-157 | fk/m2m attributes are accepted exactly when all are flags; any other attribute gives `TypeError` |
| Handlers.RegistryKeys | codegen/tortoise_model/handlers.py:165-174 | exactly eight tags are registered, there is no `bool`, and the relation handlers are those of `fk` and `m2m` |
| Handlers.DispatchShape | codegen/tortoise_model/gen.py:49-57 | every handler's accepted template has exactly one `{}`; a non-relation handler declares its own kind under the field name; no `IndexError` escapes |
| Handlers.ScalarDispatchShape | codegen/tortoise_model/gen.py:57 | a non-relation handler's accepted template is `<name> = fields.<Kind>Field({})`, and no `IndexError` escapes |
| Gen.TargetModel | codegen/tortoise_model/gen.py:50-53 | the model name given to fk/m2m holds no `.`, and only characters of the model name; an undotted name is passed unchanged |
| Gen.TargetModelSegment | codegen/tortoise_model/gen.py:52-53 | for a dotted name it is exactly the text between the first `.` and the next `.` or the end |
| Gen.FieldBlock | codegen/tortoise_model/gen.py:33-64 | a field is accepted only with an identifier name and a registered type tag, matched case-insensitively |
| Gen.CallHandler | codegen/tortoise_model/gen.py:49-57 | calls the registered handler, giving the model name to fk and m2m only; the dict it returns names each key once, so no keyword argument is rendered twice |
| Gen.ParseField | codegen/tortoise_model/gen.py:33-64 | one loop pass yields the first `:`-part as the field name and the block `FieldBlock` gives |
| Gen.ParseGenStr | codegen/tortoise_model/gen.py:27-66 | `parse_gen_str` returns what `ParseFields` gives for the space-separated tokens |
| Gen.ParseAll | codegen/tortoise_model/gen.py:32-66 | the token loop with its accumulators returns what `ParseFields` gives |
| Gen.FailureSticks | codegen/tortoise_model/gen.py:32-47 | once a prefix of the tokens fails, the whole parse fails the same way |
| Gen.ParseAccepts | codegen/tortoise_model/gen.py:30-35 | the parse succeeds exactly when every token is accepted. Then the field names are the first `:`-parts of the tokens, one per token, in order, and all are identifiers |
| Gen.FirstFailure | codegen/tortoise_model/gen.py:32-47 | tokens are processed left to right, and the first failing token's failure is the parse's failure |
| Gen.BlankFieldFails | codegen/tortoise_model/gen.py:30-38 | an empty spec or a double space fails the parse |
| Gen.PadLinesSplit | codegen/tortoise_model/gen.py:63-64 | indenting lines that hold no line break and ending each with `\n` gives text that splits back at `\n` into exactly those lines, each with two spaces in front, and then nothing |
| Gen.BlockLines | codegen/tortoise_model/gen.py:59-64 | for every declaration, whatever its keyword arguments hold, the block is made of whole lines: each line of the stripped, filled template appears once, in order, with two spaces in front and a `\n` after it, and nothing follows the last `\n` |
| Gen.OneLine | codegen/tortoise_model/gen.py:62-64 | a trimmed text with no line break becomes one line indented by two spaces |
| Gen.FieldChecks | codegen/tortoise_model/gen.py:37-47 | a non-identifier name exits with "Field name ... is invalid!"; a missing type exits with "you forgot to provide the type"; an unregistered lower-cased tag exits with "does not exist" |
| Gen.FieldMessages | codegen/tortoise_model/gen.py:37-47 | the three exits print exactly `Field name <name> is invalid!`, `you forgot to provide the type for <name>!` and `<name>'s field type of <lowered tag> does not exist!` |
| Gen.ScalarBlock | codegen/tortoise_model/gen.py:59-64 | a non-relation declaration whose keyword arguments hold no line break renders as one indented line |
| Gen.ScalarFieldBlock | codegen/tortoise_model/gen.py:57-64 | an accepted non-relation field adds exactly one line, `  <name> = fields.<Kind>Field(<k>=<v>, ...)`, with the entries in insertion order |
| Gen.PlainDispatch | codegen/tortoise_model/handlers.py:7-14 | a non-relation field with no options has only `length=255` (char) or nothing in its dict |
| Gen.PlainKwArgs | codegen/tortoise_model/gen.py:59-60 | those entries render as `length=255` or as nothing |
| Gen.PlainFieldBlock | codegen/tortoise_model/gen.py:41-64 | `name:TYPE` with a registered non-relation tag in any case renders as one line, with `length=255` for char |
| Gen.RelationKwArgs | codegen/tortoise_model/gen.py:59-60 | the relation dict renders as `related_name="<models>"`, followed for m2m by `, through="<model>_<field>"` |
| Gen.RelationArgsOneLine | codegen/tortoise_model/handlers.py:117 | those arguments hold no line break |
| Gen.RelationLineFormat | codegen/tortoise_model/gen.py:59 | formatting the declaration puts the keyword arguments after the quoted target |
| Gen.RelationLineOneLine | codegen/tortoise_model/gen.py:62-64 | the declaration line holds a line break only if the arguments do |
| Gen.ThreeLines | codegen/tortoise_model/gen.py:62-64 | three one-line pieces joined by line breaks become three indented lines |
| Gen.RelationDispatch | codegen/tortoise_model/handlers.py:104-129 | `name:fk:Target` and `name:m2m:Target` give the two comments, the declaration and the relation dict |
| Gen.RelationFormatted | codegen/tortoise_model/gen.py:59-60 | the filled relation template is the two comment lines and the declaration line, separated by line breaks |
| Gen.RelationLinesPlain | codegen/tortoise_model/gen.py:62-64 | for a model name without a line break, none of the three relation lines holds one; the first starts with `#`, the last ends with `)` |
| Gen.RelationBlock | codegen/tortoise_model/gen.py:59-64 | a relation declaration whose model name and keyword arguments hold no line break renders as exactly three indented lines |
| Gen.RelationFieldBlock | codegen/tortoise_model/gen.py:49-64 | an accepted fk/m2m field adds exactly three lines: the target comment, the reverse comment naming the undotted model, and the declaration with the entries in order |
| Gen.RelationPlainFieldBlock | codegen/tortoise_model/gen.py:49-64 | for a model name without a line break, `name:fk:Target` or `name:m2m:Target` renders as those three lines, with `related_name` and, for m2m, `through` |

## Left out

- main.py (argument parsing, the generator registry) is not part of this model.
- `TortoiseModel.generate` and `model_template` (gen.py lines 9-24 and 69-99) are
  left out: interactive prompts, printing and the `colors` ANSI codes. `validate_text`
  is modelled on its own.
- `graceful_exit`'s `print` and `exit(0)` are left out. The model keeps the
  diagnostic as the failure value. `Utils.Text` gives each message's exact text,
  bold codes included.
- The regex engine is left out. The default matcher of `Opts.Dict` is an abstract
  predicate. The handlers' own patterns are never evaluated by the code, because
  the substring test on them is false.
- `lower()` and `isidentifier()` cover ASCII only. Other characters are
  left as they are, and are not identifier characters.
- `str.format` is modelled for auto-numbered `{}` fields only. `Gen.FieldBlock` and
  `Gen.ParseGenStr` require a model name with no `{` or `}`. Only the fk and m2m
  handlers put the model name into a template that is formatted; there Python
  would misread a brace as a replacement field. A spec without fk or m2m fields
  never formats the model name, so Python accepts a braced name there, and the
  model leaves those inputs out.
- The `default_fn` option is an abstract function. `json.dumps` is modelled for
  strings only, because that is all the code passes it.
- Gen.ScalarFieldBlock: states the one-line rendering only when no keyword argument
  holds a line break. A char `length` part or an option value with a line break
  would add more lines; `Gen.BlockLines` still shows that every such line is
  indented by two spaces and ends with `\n`.
- Gen.RelationFieldBlock: states the three-line rendering only when neither the
  model name nor any keyword argument holds a line break. The model name comes from
  a one-line prompt and is stripped, but the function does not assume that.
  `Gen.BlockLines` covers the indentation of every line without that condition.
- Gen.RelationBlock: the same condition on the model name and the keyword arguments.
- Gen.RelationLinesPlain: states that the lines hold no line break only for a model
  name without one.
- Gen.RelationPlainFieldBlock: states the three-line rendering only for a model name
  without a line break.
- Gen.FieldBlock: the function also requires a brace-free model name (see
  `str.format` above).

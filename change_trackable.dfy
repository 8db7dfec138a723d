/**
 * The change-tracking ledger of a model: for every attribute that changed
 * on a save, the value it had before the first tracked save and its latest
 * value, kept in ascending key order.
 */
module ChangeTracking {
  import opened Wrappers
  import opened Text
  import opened Decimal

  /** An attribute value, as far as `!==`, `=== ''`, `=== null` and string conversion see it. */
  datatype Value = Null | Bool(b: bool) | Int(i: int) | Str(s: string)

  /** One ledger entry: `$trackedChanges[key] = ['old' => oldValue, 'new' => newValue]`. */
  datatype Entry = Entry(key: string, oldValue: Value, newValue: Value)

  /** `strcmp(a, b) < 0`: the order `ksort` puts non-numeric string keys in. */
  predicate Lt(a: string, b: string)
    decreases |a|
  {
    if a == [] then b != []
    else if b == [] then false
    else a[0] < b[0] || (a[0] == b[0] && Lt(a[1..], b[1..]))
  }

  lemma {:induction false} LtIrreflexive(a: string)
    ensures !Lt(a, a)
    decreases |a|
  {
    if a != [] {
      LtIrreflexive(a[1..]);
    }
  }

  lemma {:induction false} LtTransitive(a: string, b: string, c: string)
    requires Lt(a, b) && Lt(b, c)
    ensures Lt(a, c)
    decreases |a|
  {
    if a != [] && a[0] == b[0] && b[0] == c[0] {
      LtTransitive(a[1..], b[1..], c[1..]);
    }
  }

  lemma {:induction false} LtTotal(a: string, b: string)
    requires a != b
    ensures Lt(a, b) || Lt(b, a)
    decreases |a|
  {
    if a != [] && b != [] && a[0] == b[0] {
      assert a == [a[0]] + a[1..] && b == [b[0]] + b[1..];
      LtTotal(a[1..], b[1..]);
    }
  }

  /** The keys present in a ledger. */
  function Keys(l: seq<Entry>): set<string>
  {
    if l == [] then {} else {l[0].key} + Keys(l[1..])
  }

  /** Keys strictly ascending: each key precedes every key after it (so no key repeats). */
  predicate Sorted(l: seq<Entry>)
  {
    l == [] || ((forall k :: k in Keys(l[1..]) ==> Lt(l[0].key, k)) && Sorted(l[1..]))
  }

  /** `$trackedChanges[$k]`, if present. */
  function Lookup(l: seq<Entry>, k: string): (r: Option<Entry>)
    ensures r.Some? <==> k in Keys(l)
    ensures r.Some? ==> r.value.key == k
  {
    if l == [] then None else if l[0].key == k then Some(l[0]) else Lookup(l[1..], k)
  }

  /**
   * `trackChange`: `array_set` of `key.old` (only when the key is new) and of
   * `key.new`, followed by `ksort`. On an ascending ledger this is an update
   * in place or an insertion at the key's sorted position.
   */
  function Upsert(l: seq<Entry>, k: string, oldValue: Value, newValue: Value): seq<Entry>
  {
    if l == [] then [Entry(k, oldValue, newValue)]
    else if l[0].key == k then [l[0].(newValue := newValue)] + l[1..]
    else if Lt(k, l[0].key) then [Entry(k, oldValue, newValue)] + l
    else [l[0]] + Upsert(l[1..], k, oldValue, newValue)
  }

  /** The ledger gains exactly the tracked key: nothing is ever removed. */
  lemma {:induction false} UpsertKeys(l: seq<Entry>, k: string, oldValue: Value, newValue: Value)
    ensures Keys(Upsert(l, k, oldValue, newValue)) == Keys(l) + {k}
  {
    if l != [] && l[0].key != k && !Lt(k, l[0].key) {
      UpsertKeys(l[1..], k, oldValue, newValue);
      assert (([l[0]] + Upsert(l[1..], k, oldValue, newValue))[1..]) == Upsert(l[1..], k, oldValue, newValue);
    } else if l != [] && l[0].key == k {
      assert ([l[0].(newValue := newValue)] + l[1..])[1..] == l[1..];
    } else if l != [] {
      assert ([Entry(k, oldValue, newValue)] + l)[1..] == l;
    }
  }

  /** After every `trackChange` the keys are still in ascending order. */
  lemma {:induction false} UpsertSorted(l: seq<Entry>, k: string, oldValue: Value, newValue: Value)
    requires Sorted(l)
    ensures Sorted(Upsert(l, k, oldValue, newValue))
  {
    var r := Upsert(l, k, oldValue, newValue);
    if l == [] {
    } else if l[0].key == k {
      assert r[1..] == l[1..];
    } else if Lt(k, l[0].key) {
      assert r[1..] == l;
      forall k' | k' in Keys(l) ensures Lt(k, k') {
        if k' != l[0].key {
          LtTransitive(k, l[0].key, k');
        }
      }
    } else {
      var rest := Upsert(l[1..], k, oldValue, newValue);
      assert r[1..] == rest;
      UpsertSorted(l[1..], k, oldValue, newValue);
      UpsertKeys(l[1..], k, oldValue, newValue);
      LtTotal(k, l[0].key);
    }
  }

  /**
   * The first tracked old value of a key is frozen and its new value is
   * overwritten; a key seen for the first time gets both values; every other
   * key keeps its entry.
   */
  lemma {:induction false} UpsertLookup(l: seq<Entry>, k: string, oldValue: Value, newValue: Value)
    requires Sorted(l)
    ensures var r := Upsert(l, k, oldValue, newValue);
      Lookup(r, k) == Some(match Lookup(l, k)
                           case Some(e) => Entry(k, e.oldValue, newValue)
                           case None => Entry(k, oldValue, newValue))
    ensures forall k' :: k' != k ==> Lookup(Upsert(l, k, oldValue, newValue), k') == Lookup(l, k')
  {
    var r := Upsert(l, k, oldValue, newValue);
    if l == [] {
    } else if l[0].key == k {
      assert r[1..] == l[1..];
    } else if Lt(k, l[0].key) {
      assert r[1..] == l;
      if k in Keys(l[1..]) {
        LtIrreflexive(k);
        LtTransitive(k, l[0].key, k);
      }
    } else {
      assert r[1..] == Upsert(l[1..], k, oldValue, newValue);
      UpsertLookup(l[1..], k, oldValue, newValue);
    }
  }

  /**
   * A sorted ledger is determined by what it maps each key to: so `Upsert`
   * is the only ascending arrangement of the updated map, i.e. what `ksort`
   * produces.
   */
  lemma {:induction false} SortedLedgersAgree(a: seq<Entry>, b: seq<Entry>)
    requires Sorted(a) && Sorted(b)
    requires forall k :: Lookup(a, k) == Lookup(b, k)
    ensures a == b
    decreases |a|
  {
    assert a == [] <==> b == [] by {
      if a != [] {
        assert Lookup(b, a[0].key).Some? by { assert Lookup(a, a[0].key).Some?; }
      }
      if b != [] {
        assert Lookup(a, b[0].key).Some? by { assert Lookup(b, b[0].key).Some?; }
      }
    }
    if a != [] {
      assert Lookup(b, a[0].key).Some? by { assert Lookup(a, a[0].key).Some?; }
      assert Lookup(a, b[0].key).Some? by { assert Lookup(b, b[0].key).Some?; }
      if a[0].key != b[0].key {
        assert a[0].key in Keys(b[1..]);
        assert b[0].key in Keys(a[1..]);
        LtTransitive(a[0].key, b[0].key, a[0].key);
        LtIrreflexive(a[0].key);
      }
      assert a[0] == Lookup(a, a[0].key).value == Lookup(b, a[0].key).value == b[0];
      forall k ensures Lookup(a[1..], k) == Lookup(b[1..], k) {
        if k == a[0].key {
          if k in Keys(a[1..]) {
            LtIrreflexive(k);
          }
          if k in Keys(b[1..]) {
            LtIrreflexive(k);
          }
        } else {
          assert Lookup(a, k) == Lookup(a[1..], k);
          assert Lookup(b, k) == Lookup(b[1..], k);
        }
      }
      SortedLedgersAgree(a[1..], b[1..]);
    }
  }

  /** `getOriginalAttributeValue($key)`: the original value, or null for an attribute that had none. */
  function OriginalValue(original: map<string, Value>, key: string): Value
  {
    if key in original then original[key] else Null
  }

  /** One iteration of the `trackChanges` loop: record the change unless `$new === $old`. */
  function TrackStep(l: seq<Entry>, dirty: (string, Value), original: map<string, Value>): seq<Entry>
  {
    var oldValue := OriginalValue(original, dirty.0);
    if dirty.1 != oldValue then Upsert(l, dirty.0, oldValue, dirty.1) else l
  }

  /** The ledger after `trackChanges` has visited every dirty attribute in order. */
  function TrackAll(l: seq<Entry>, dirty: seq<(string, Value)>, original: map<string, Value>): (r: seq<Entry>)
    requires Sorted(l)
    ensures Sorted(r)
  {
    if dirty == [] then l
    else
      var prior := TrackAll(l, dirty[..|dirty| - 1], original);
      UpsertSorted(prior, dirty[|dirty| - 1].0, OriginalValue(original, dirty[|dirty| - 1].0), dirty[|dirty| - 1].1);
      TrackStep(prior, dirty[|dirty| - 1], original)
  }

  /** The value of `k` in the last dirty pair for `k` that differs from the original, if any. */
  function LastChange(dirty: seq<(string, Value)>, original: map<string, Value>, k: string): Option<Value>
  {
    if dirty == [] then None
    else
      var d := dirty[|dirty| - 1];
      if d.0 == k && d.1 != OriginalValue(original, k) then Some(d.1)
      else LastChange(dirty[..|dirty| - 1], original, k)
  }

  /**
   * After `trackChanges`, a key whose value changed holds its first tracked
   * old value (the original value if it was not tracked before) and the
   * changed value; every other key keeps its entry, and an unchanged value
   * (`$new === $old`) is never recorded.
   */
  lemma {:induction false} TrackAllLookup(l: seq<Entry>, dirty: seq<(string, Value)>, original: map<string, Value>, k: string)
    requires Sorted(l)
    ensures Lookup(TrackAll(l, dirty, original), k) ==
      match LastChange(dirty, original, k)
      case None => Lookup(l, k)
      case Some(v) => Some(Entry(k, match Lookup(l, k)
                                    case Some(e) => e.oldValue
                                    case None => OriginalValue(original, k), v))
  {
    if dirty != [] {
      var init := dirty[..|dirty| - 1];
      var d := dirty[|dirty| - 1];
      TrackAllLookup(l, init, original, k);
      var prior := TrackAll(l, init, original);
      if d.1 != OriginalValue(original, d.0) {
        UpsertLookup(prior, d.0, OriginalValue(original, d.0), d.1);
      }
    }
  }

  /** Tracking never removes a key: the ledger only grows. */
  lemma {:induction false} TrackAllNeverShrinks(l: seq<Entry>, dirty: seq<(string, Value)>, original: map<string, Value>)
    requires Sorted(l)
    ensures Keys(l) <= Keys(TrackAll(l, dirty, original))
  {
    if dirty != [] {
      var init := dirty[..|dirty| - 1];
      var d := dirty[|dirty| - 1];
      TrackAllNeverShrinks(l, init, original);
      UpsertKeys(TrackAll(l, init, original), d.0, OriginalValue(original, d.0), d.1);
    }
  }

  /** `array_only($l, $attrs)`: the entries whose key is listed, in ledger order. */
  function Only(l: seq<Entry>, attrs: seq<string>): seq<Entry>
  {
    if l == [] then [] else (if l[0].key in attrs then [l[0]] else []) + Only(l[1..], attrs)
  }

  /** `getTrackedChangesArrayFor`: the whole ledger for an empty list, else the listed keys. */
  function ArrayFor(l: seq<Entry>, attrs: seq<string>): seq<Entry>
  {
    if attrs == [] then l else Only(l, attrs)
  }

  /** `property_exists(static::class, 'trackable') ? $this->trackable : []`. */
  function AllowList(trackable: Option<seq<string>>): seq<string>
  {
    trackable.GetOr([])
  }

  /** `hasAnyTrackedChangesFor`: `array_only` is non-empty. */
  predicate HasAnyFor(l: seq<Entry>, attrs: seq<string>)
  {
    Only(l, attrs) != []
  }

  /** `array_only` keeps exactly the listed keys, with their entries untouched and in ledger order. */
  lemma {:induction false} OnlyLookup(l: seq<Entry>, attrs: seq<string>)
    requires Sorted(l)
    ensures Sorted(Only(l, attrs))
    ensures Keys(Only(l, attrs)) == set k | k in Keys(l) && k in attrs
    ensures forall k :: Lookup(Only(l, attrs), k) == if k in attrs then Lookup(l, k) else None
  {
    if l != [] {
      OnlyLookup(l[1..], attrs);
      var rest := Only(l[1..], attrs);
      if l[0].key in attrs {
        assert Only(l, attrs) == [l[0]] + rest;
        assert ([l[0]] + rest)[1..] == rest;
      } else {
        assert Only(l, attrs) == rest;
      }
    }
  }

  /**
   * The array accessors return the whole ledger for an empty list and the
   * ledger restricted to the listed keys otherwise.
   */
  lemma ArrayForRestricts(l: seq<Entry>, attrs: seq<string>)
    requires Sorted(l)
    ensures attrs == [] ==> ArrayFor(l, attrs) == l
    ensures attrs != [] ==> forall k :: Lookup(ArrayFor(l, attrs), k) == if k in attrs then Lookup(l, k) else None
  {
    OnlyLookup(l, attrs);
  }

  /**
   * `hasAnyTrackedChangesFor(list)` holds exactly when some listed key is in
   * the ledger, so it is false for an empty list, although the array
   * accessors read an empty list as "every key".
   */
  lemma HasAnyForIff(l: seq<Entry>, attrs: seq<string>)
    requires Sorted(l)
    ensures HasAnyFor(l, attrs) <==> exists k :: k in attrs && k in Keys(l)
    ensures attrs == [] ==> !HasAnyFor(l, attrs) && ArrayFor(l, attrs) == l
  {
    OnlyLookup(l, attrs);
    if HasAnyFor(l, attrs) {
      var e := Only(l, attrs)[0];
      assert e.key in Keys(Only(l, attrs));
    }
  }

  /**
   * `getTrackedChangesArray` filters by `trackable` when it is declared and
   * non-empty and returns everything otherwise; `hasTrackedChanges` holds
   * exactly when a key it lets through is in the ledger.
   */
  lemma TrackedArrayFilters(l: seq<Entry>, trackable: Option<seq<string>>)
    requires Sorted(l)
    ensures trackable.None? || trackable == Some([]) ==> ArrayFor(l, AllowList(trackable)) == l
    ensures forall attrs :: trackable == Some(attrs) && attrs != [] ==>
      forall k :: Lookup(ArrayFor(l, AllowList(trackable)), k) == if k in attrs then Lookup(l, k) else None
    ensures ArrayFor(l, AllowList(trackable)) != [] <==>
      exists k :: k in Keys(l) && (AllowList(trackable) == [] || k in AllowList(trackable))
  {
    var attrs := AllowList(trackable);
    OnlyLookup(l, attrs);
    var r := ArrayFor(l, attrs);
    if r != [] {
      assert r[0].key in Keys(r);
    }
  }

  /** The placeholders of a change template. */
  const ATTRIBUTE: string := "{attribute}"
  const LABEL: string := "{label}"
  const OLD: string := "{old}"
  const NEW: string := "{new}"

  /** The default template and delimiter of the string accessors. */
  const DEFAULT_FORMAT: string := "{attribute}: {old} > {new}"
  const DEFAULT_DELIMITER: string := " | "

  /** PHP's string conversion of a scalar: `true` is "1", `false` and `null` are "". */
  function ValueText(v: Value): string
  {
    match v
    case Null => ""
    case Bool(b) => if b then "1" else ""
    case Int(i) => IntText(i)
    case Str(s) => s
  }

  /** An old or new value as shown: `''` and `null` become the given placeholder text. */
  function Shown(v: Value, empty: string): string
  {
    if v == Str("") || v == Null then empty else ValueText(v)
  }

  /** The `{label}` text: the key with underscores as spaces, through `title_case`. */
  function Label(key: string, titleCase: string -> string): string
  {
    titleCase(ReplaceAll(key, "_", " "))
  }

  /**
   * One entry through `str_replace` with arrays, which replaces the
   * placeholders one after the other, each pass on the previous result.
   */
  function RenderEntry(e: Entry, format: string, emptyOld: string, emptyNew: string, titleCase: string -> string): string
  {
    var a := ReplaceAll(format, ATTRIBUTE, e.key);
    var b := ReplaceAll(a, LABEL, Label(e.key, titleCase));
    var c := ReplaceAll(b, OLD, Shown(e.oldValue, emptyOld));
    ReplaceAll(c, NEW, Shown(e.newValue, emptyNew))
  }

  /** Every entry rendered, in ledger order. */
  function Rendered(changes: seq<Entry>, format: string, emptyOld: string, emptyNew: string, titleCase: string -> string): (r: seq<string>)
    ensures |r| == |changes|
    ensures forall i :: 0 <= i < |changes| ==> r[i] == RenderEntry(changes[i], format, emptyOld, emptyNew, titleCase)
  {
    seq(|changes|, i requires 0 <= i < |changes| => RenderEntry(changes[i], format, emptyOld, emptyNew, titleCase))
  }

  /**
   * Rendering distributes over the ledger: each entry is rendered on its
   * own, so the rendering of two ledgers one after the other is the two
   * renderings one after the other.
   */
  lemma RenderedConcat(a: seq<Entry>, b: seq<Entry>, format: string, emptyOld: string, emptyNew: string,
                       titleCase: string -> string)
    ensures Rendered(a + b, format, emptyOld, emptyNew, titleCase)
         == Rendered(a, format, emptyOld, emptyNew, titleCase) + Rendered(b, format, emptyOld, emptyNew, titleCase)
  {
  }

  /** The text `getChangesString` builds: the rendered entries separated by the delimiter. */
  function ChangesText(changes: seq<Entry>, format: string, delimiter: string, emptyOld: string, emptyNew: string,
                       titleCase: string -> string): string
  {
    Join(Rendered(changes, format, emptyOld, emptyNew, titleCase), delimiter)
  }

  /**
   * An empty ledger gives the empty string, a single entry its rendering, and
   * each further entry adds the delimiter and its rendering at the end: no
   * delimiter before the first or after the last.
   */
  lemma ChangesTextShape(changes: seq<Entry>, e: Entry, format: string, delimiter: string, emptyOld: string,
                         emptyNew: string, titleCase: string -> string)
    ensures ChangesText([], format, delimiter, emptyOld, emptyNew, titleCase) == ""
    ensures ChangesText([e], format, delimiter, emptyOld, emptyNew, titleCase) == RenderEntry(e, format, emptyOld, emptyNew, titleCase)
    ensures changes != [] ==>
      ChangesText(changes + [e], format, delimiter, emptyOld, emptyNew, titleCase) ==
      ChangesText(changes, format, delimiter, emptyOld, emptyNew, titleCase) + delimiter + RenderEntry(e, format, emptyOld, emptyNew, titleCase)
  {
    var rs := Rendered(changes, format, emptyOld, emptyNew, titleCase);
    var r := RenderEntry(e, format, emptyOld, emptyNew, titleCase);
    assert Rendered([e], format, emptyOld, emptyNew, titleCase) == [r];
    if changes != [] {
      RenderedConcat(changes, [e], format, emptyOld, emptyNew, titleCase);
      JoinAppend(rs, r, delimiter);
    }
  }

  /** A placeholder other than the one searched for passes through a pass unchanged. */
  lemma {:induction false} SkipOtherPlaceholder(ph: string, rest: string, search: string, replace: string)
    requires |ph| >= 2 && |search| >= 2 && ph[0] == '{' == search[0] && ph[1] != search[1]
    requires '{' !in ph[1..]
    ensures ReplaceAll(ph + rest, search, replace) == ph + ReplaceAll(rest, search, replace)
  {
    var s := ph + rest;
    if |s| >= |search| {
      assert s[..|search|] != search by {
        assert s[..|search|][1] == ph[1];
      }
      assert ReplaceAll(s, search, replace) == [s[0]] + ReplaceAll(s[1..], search, replace);
      assert s[1..] == ph[1..] + rest;
      ReplaceFreePrefix(ph[1..], rest, search, replace);
      assert [ph[0]] + ph[1..] == ph;
    } else {
      assert ReplaceAll(rest, search, replace) == rest;
    }
  }

  /**
   * A pass for `{attribute}` or `{label}` over text that holds only `{old}`
   * and `{new}` as placeholders changes nothing.
   */
  lemma OldNewTailIdle(x: string, p2: string, p3: string, search: string, r: string)
    requires '{' !in x && '{' !in p2 && '{' !in p3
    requires search == ATTRIBUTE || search == LABEL
    ensures ReplaceAll(x + (OLD + (p2 + (NEW + p3))), search, r) == x + (OLD + (p2 + (NEW + p3)))
  {
    ReplaceFreePrefix(x, OLD + (p2 + (NEW + p3)), search, r);
    SkipOtherPlaceholder(OLD, p2 + (NEW + p3), search, r);
    ReplaceFreePrefix(p2, NEW + p3, search, r);
    SkipOtherPlaceholder(NEW, p3, search, r);
    ReplaceFreePrefix(p3, "", search, r);
    assert p3 + "" == p3;
  }

  /** The `{attribute}` pass over the template: the leading placeholder becomes the key, nothing else changes. */
  lemma AttributePass(k: string, p1: string, p2: string, p3: string)
    requires '{' !in p1 && '{' !in p2 && '{' !in p3
    ensures ReplaceAll(ATTRIBUTE + (p1 + (OLD + (p2 + (NEW + p3)))), ATTRIBUTE, k) == k + (p1 + (OLD + (p2 + (NEW + p3))))
  {
    ReplaceLeading(p1 + (OLD + (p2 + (NEW + p3))), ATTRIBUTE, k);
    OldNewTailIdle(p1, p2, p3, ATTRIBUTE, k);
  }

  /** The `{attribute}` pass over a template with `{label}`: only the leading placeholder changes. */
  lemma LabelledAttributePass(k: string, p1: string, p2: string, p3: string, p4: string)
    requires '{' !in p1 && '{' !in p2 && '{' !in p3 && '{' !in p4
    ensures var t := LABEL + (p2 + (OLD + (p3 + (NEW + p4))));
      ReplaceAll(ATTRIBUTE + (p1 + t), ATTRIBUTE, k) == k + (p1 + t)
  {
    var tail := p2 + (OLD + (p3 + (NEW + p4)));
    ReplaceLeading(p1 + (LABEL + tail), ATTRIBUTE, k);
    ReplaceFreePrefix(p1, LABEL + tail, ATTRIBUTE, k);
    SkipOtherPlaceholder(LABEL, tail, ATTRIBUTE, k);
    OldNewTailIdle(p2, p3, p4, ATTRIBUTE, k);
  }

  /** The `{label}` pass: the one `{label}` becomes the label text. */
  lemma LabelPass(x: string, lab: string, p2: string, p3: string, p4: string)
    requires '{' !in x && '{' !in p2 && '{' !in p3 && '{' !in p4
    ensures var tail := p2 + (OLD + (p3 + (NEW + p4)));
      ReplaceAll(x + (LABEL + tail), LABEL, lab) == x + (lab + tail)
  {
    var tail := p2 + (OLD + (p3 + (NEW + p4)));
    ReplaceFreePrefix(x, LABEL + tail, LABEL, lab);
    ReplaceLeading(tail, LABEL, lab);
    OldNewTailIdle(p2, p3, p4, LABEL, lab);
  }

  /** The `{old}` pass: the one `{old}` becomes the shown old value. */
  lemma OldPass(x: string, o: string, p2: string, p3: string)
    requires '{' !in x && '{' !in p2 && '{' !in p3
    ensures ReplaceAll(x + (OLD + (p2 + (NEW + p3))), OLD, o) == x + (o + (p2 + (NEW + p3)))
  {
    ReplaceFreePrefix(x, OLD + (p2 + (NEW + p3)), OLD, o);
    ReplaceLeading(p2 + (NEW + p3), OLD, o);
    ReplaceFreePrefix(p2, NEW + p3, OLD, o);
    SkipOtherPlaceholder(NEW, p3, OLD, o);
    ReplaceFreePrefix(p3, "", OLD, o);
    assert p3 + "" == p3;
  }

  /** The `{new}` pass: the one `{new}` becomes the shown new value. */
  lemma NewPass(y: string, n: string, p3: string)
    requires '{' !in y && '{' !in p3
    ensures ReplaceAll(y + (NEW + p3), NEW, n) == y + (n + p3)
  {
    ReplaceFreePrefix(y, NEW + p3, NEW, n);
    ReplaceLeading(p3, NEW, n);
    ReplaceFreePrefix(p3, "", NEW, n);
    assert p3 + "" == p3;
  }

  /**
   * A template made of `{attribute}`, `{old}` and `{new}` in that order,
   * around literal text, renders as that text around the key and the shown
   * values, as long as none of them contains `{` (the passes of `str_replace`
   * then cannot interfere with each other).
   */
  lemma {:induction false} TemplateRendering(e: Entry, p1: string, p2: string, p3: string, emptyOld: string, emptyNew: string,
                                             titleCase: string -> string)
    requires '{' !in e.key && '{' !in p1 && '{' !in p2 && '{' !in p3
    requires '{' !in Shown(e.oldValue, emptyOld) && '{' !in Shown(e.newValue, emptyNew)
    ensures RenderEntry(e, ATTRIBUTE + p1 + OLD + p2 + NEW + p3, emptyOld, emptyNew, titleCase) ==
      e.key + p1 + Shown(e.oldValue, emptyOld) + p2 + Shown(e.newValue, emptyNew) + p3
  {
    var o, n, k := Shown(e.oldValue, emptyOld), Shown(e.newValue, emptyNew), e.key;
    var rest := OLD + (p2 + (NEW + p3));
    var a := ReplaceAll(ATTRIBUTE + p1 + OLD + p2 + NEW + p3, ATTRIBUTE, k);
    assert a == (k + p1) + rest by {
      assert ATTRIBUTE + p1 + OLD + p2 + NEW + p3 == ATTRIBUTE + (p1 + rest);
      AttributePass(k, p1, p2, p3);
    }
    var b := ReplaceAll(a, LABEL, Label(k, titleCase));
    assert b == a by {
      OldNewTailIdle(k + p1, p2, p3, LABEL, Label(k, titleCase));
    }
    var c := ReplaceAll(b, OLD, o);
    assert c == (k + p1 + o + p2) + (NEW + p3) by {
      OldPass(k + p1, o, p2, p3);
    }
    assert ReplaceAll(c, NEW, n) == k + p1 + o + p2 + n + p3 by {
      NewPass(k + p1 + o + p2, n, p3);
    }
  }

  /**
   * A template made of `{attribute}`, `{label}`, `{old}` and `{new}` in that
   * order renders as its literal text around the key, the label (the key with
   * underscores as spaces, through `title_case`) and the shown values, as long
   * as none of them contains `{`.
   */
  lemma {:induction false} LabelledTemplateRendering(e: Entry, p1: string, p2: string, p3: string, p4: string,
                                                     emptyOld: string, emptyNew: string, titleCase: string -> string)
    requires '{' !in e.key && '{' !in p1 && '{' !in p2 && '{' !in p3 && '{' !in p4
    requires '{' !in Label(e.key, titleCase)
    requires '{' !in Shown(e.oldValue, emptyOld) && '{' !in Shown(e.newValue, emptyNew)
    ensures RenderEntry(e, ATTRIBUTE + p1 + LABEL + p2 + OLD + p3 + NEW + p4, emptyOld, emptyNew, titleCase) ==
      e.key + p1 + Label(e.key, titleCase) + p2 + Shown(e.oldValue, emptyOld) + p3 + Shown(e.newValue, emptyNew) + p4
  {
    var o, n, k, lab := Shown(e.oldValue, emptyOld), Shown(e.newValue, emptyNew), e.key, Label(e.key, titleCase);
    var tail := p2 + (OLD + (p3 + (NEW + p4)));
    var a := ReplaceAll(ATTRIBUTE + p1 + LABEL + p2 + OLD + p3 + NEW + p4, ATTRIBUTE, k);
    assert a == (k + p1) + (LABEL + tail) by {
      assert ATTRIBUTE + p1 + LABEL + p2 + OLD + p3 + NEW + p4 == ATTRIBUTE + (p1 + (LABEL + tail));
      LabelledAttributePass(k, p1, p2, p3, p4);
    }
    var b := ReplaceAll(a, LABEL, lab);
    assert b == (k + p1 + lab + p2) + (OLD + (p3 + (NEW + p4))) by {
      LabelPass(k + p1, lab, p2, p3, p4);
    }
    var c := ReplaceAll(b, OLD, o);
    assert c == (k + p1 + lab + p2 + o + p3) + (NEW + p4) by {
      OldPass(k + p1 + lab + p2, o, p3, p4);
    }
    assert ReplaceAll(c, NEW, n) == k + p1 + lab + p2 + o + p3 + n + p4 by {
      NewPass(k + p1 + lab + p2 + o + p3, n, p4);
    }
  }

  /** With the default template, an entry renders as `key: old > new`. */
  lemma DefaultFormatRendering(e: Entry, emptyOld: string, emptyNew: string, titleCase: string -> string)
    requires '{' !in e.key
    requires '{' !in Shown(e.oldValue, emptyOld) && '{' !in Shown(e.newValue, emptyNew)
    ensures RenderEntry(e, DEFAULT_FORMAT, emptyOld, emptyNew, titleCase) ==
      e.key + ": " + Shown(e.oldValue, emptyOld) + " > " + Shown(e.newValue, emptyNew)
  {
    assert DEFAULT_FORMAT == ATTRIBUTE + ": " + OLD + " > " + NEW + "";
    TemplateRendering(e, ": ", " > ", "", emptyOld, emptyNew, titleCase);
  }

  /** A one-entry ledger through a sentence template. */
  lemma {:induction false} SentenceTemplateExample(titleCase: string -> string)
    ensures ChangesText([Entry("name", Str("Marty"), Str("Calvin Klein"))],
                        "{attribute} was changed from \"{old}\" to \"{new}\"", DEFAULT_DELIMITER, "", "", titleCase)
            == "name was changed from \"Marty\" to \"Calvin Klein\""
  {
    var e := Entry("name", Str("Marty"), Str("Calvin Klein"));
    var format := "{attribute} was changed from \"{old}\" to \"{new}\"";
    var p1, p2, p3 := " was changed from \"", "\" to \"", "\"";
    assert RenderEntry(e, format, "", "", titleCase) == "name" + p1 + "Marty" + p2 + "Calvin Klein" + p3 by {
      SentencePieces();
      assert Shown(e.oldValue, "") == "Marty" && Shown(e.newValue, "") == "Calvin Klein";
      TemplateRendering(e, p1, p2, p3, "", "", titleCase);
    }
    ChangesTextShape([], e, format, DEFAULT_DELIMITER, "", "", titleCase);
    SentenceLiteral();
  }

  lemma SentencePieces()
    ensures "{attribute} was changed from \"{old}\" to \"{new}\""
         == ATTRIBUTE + " was changed from \"" + OLD + "\" to \"" + NEW + "\""
  {
  }

  lemma SentenceLiteral()
    ensures "name" + " was changed from \"" + "Marty" + "\" to \"" + "Calvin Klein" + "\""
        == "name was changed from \"Marty\" to \"Calvin Klein\""
  {
  }

  /** `getChangesString`: the loop of the source, with its `$i` counter. */
  method GetChangesString(changes: seq<Entry>, format: string, delimiter: string, emptyOld: string, emptyNew: string,
                          titleCase: string -> string) returns (str: string)
    ensures str == ChangesText(changes, format, delimiter, emptyOld, emptyNew, titleCase)
  {
    str := "";
    var i := 0;
    var count := |changes|;
    while i < count
      invariant 0 <= i <= count
      invariant str == ChangesText(changes[..i], format, delimiter, emptyOld, emptyNew, titleCase)
                       + (if 0 < i < count then delimiter else "")
    {
      var value := changes[i];
      i := i + 1;
      assert ChangesText(changes[..i], format, delimiter, emptyOld, emptyNew, titleCase)
          == ChangesText(changes[..i - 1], format, delimiter, emptyOld, emptyNew, titleCase)
             + (if i > 1 then delimiter else "") + RenderEntry(value, format, emptyOld, emptyNew, titleCase) by {
        assert changes[..i] == changes[..i - 1] + [value];
        ChangesTextShape(changes[..i - 1], value, format, delimiter, emptyOld, emptyNew, titleCase);
      }
      str := str + RenderEntry(value, format, emptyOld, emptyNew, titleCase);
      if i < count {
        str := str + delimiter;
      }
    }
    assert changes[..count] == changes;
  }

  /**
   * Saving a name change and then an age change: the second save adds `age`
   * before `name`; a model whose `trackable` is `['age']` sees nothing after
   * the first save and only the age after the second; a third save of the
   * age keeps its first old value.
   */
  lemma {:induction false} SaveSequenceExample()
    ensures var before := map["name" := Str("Marty"), "age" := Int(50)];
      var l1 := TrackAll([], [("name", Str("Calvin Klein"))], before);
      var l2 := TrackAll(l1, [("age", Int(51))], before["name" := Str("Calvin Klein")]);
      var l3 := TrackAll(l2, [("age", Int(52))], before["name" := Str("Calvin Klein")]["age" := Int(51)]);
      && l1 == [Entry("name", Str("Marty"), Str("Calvin Klein"))]
      && l2 == [Entry("age", Int(50), Int(51)), Entry("name", Str("Marty"), Str("Calvin Klein"))]
      && ArrayFor(l1, ["age"]) == []
      && ArrayFor(l2, ["age"]) == [Entry("age", Int(50), Int(51))]
      && l3 == [Entry("age", Int(50), Int(52)), Entry("name", Str("Marty"), Str("Calvin Klein"))]
  {
    var name := Entry("name", Str("Marty"), Str("Calvin Klein"));
    var before := map["name" := Str("Marty"), "age" := Int(50)];
    var d1 := [("name", Str("Calvin Klein"))];
    assert d1[..0] == [];
    var l1 := TrackAll([], d1, before);
    assert l1 == [name];
    var after1 := before["name" := Str("Calvin Klein")];
    var d2 := [("age", Int(51))];
    assert d2[..0] == [];
    assert Lt("age", "name");
    var l2 := TrackAll(l1, d2, after1);
    assert OriginalValue(after1, "age") == Int(50);
    assert TrackAll(l1, d2[..0], after1) == l1;
    assert l2 == Upsert(l1, "age", Int(50), Int(51));
    assert l2 == [Entry("age", Int(50), Int(51)), name];
    assert Only(l1, ["age"]) == [];
    assert Only(l2, ["age"]) == [Entry("age", Int(50), Int(51))] by {
      assert l2[1..] == [name];
      assert Only(l2[1..], ["age"]) == [];
    }
    var d3 := [("age", Int(52))];
    assert d3[..0] == [];
    var after2 := after1["age" := Int(51)];
    var l3 := TrackAll(l2, d3, after2);
    assert OriginalValue(after2, "age") == Int(51);
    assert TrackAll(l2, d3[..0], after2) == l2;
    assert l3 == Upsert(l2, "age", Int(51), Int(52));
    assert l3 == [Entry("age", Int(50), Int(52)), name];
  }

  /** The ledger of a model that tracks the attributes listed in `trackable`, if it declares one. */
  class ChangeTracker {
    var trackedChanges: seq<Entry>
    const trackable: Option<seq<string>>

    /** The ledger is kept in ascending key order. */
    ghost predicate Valid()
      reads this
    {
      Sorted(trackedChanges)
    }

    /** A model starts with an empty ledger. */
    constructor (trackable: Option<seq<string>>)
      ensures Valid() && trackedChanges == [] && this.trackable == trackable
    {
      trackedChanges := [];
      this.trackable := trackable;
    }

    /** `trackChange($key, $old, $new)`. */
    method TrackChange(key: string, oldValue: Value, newValue: Value)
      requires Valid()
      modifies this`trackedChanges
      ensures Valid()
      ensures trackedChanges == Upsert(old(trackedChanges), key, oldValue, newValue)
    {
      UpsertSorted(trackedChanges, key, oldValue, newValue);
      trackedChanges := Upsert(trackedChanges, key, oldValue, newValue);
    }

    /**
     * `trackChanges()`, run by the saving hook: `dirty` is `getDirty()` paired
     * with each attribute's current value, `original` the values before the
     * save.
     */
    method TrackChanges(dirty: seq<(string, Value)>, original: map<string, Value>)
      requires Valid()
      modifies this`trackedChanges
      ensures Valid()
      ensures trackedChanges == TrackAll(old(trackedChanges), dirty, original)
    {
      if dirty != [] {
        var i := 0;
        while i < |dirty|
          invariant 0 <= i <= |dirty|
          invariant Sorted(old(trackedChanges))
          invariant Valid()
          invariant trackedChanges == TrackAll(old(trackedChanges), dirty[..i], original)
        {
          var key := dirty[i].0;
          var newValue := dirty[i].1;
          var oldValue := OriginalValue(original, key);
          assert dirty[..i + 1][..i] == dirty[..i];
          if newValue != oldValue {
            TrackChange(key, oldValue, newValue);
          }
          i := i + 1;
        }
        assert dirty[..|dirty|] == dirty;
      }
    }

    /** `getTrackedChangesArray`. */
    function GetTrackedChangesArray(): seq<Entry>
      reads this
    {
      ArrayFor(trackedChanges, AllowList(trackable))
    }

    /** `getTrackedChangesArrayFor`. */
    function GetTrackedChangesArrayFor(attrs: seq<string>): seq<Entry>
      reads this
    {
      ArrayFor(trackedChanges, attrs)
    }

    /** `getTrackedChangesArrayForAll`. */
    function GetTrackedChangesArrayForAll(): seq<Entry>
      reads this
    {
      trackedChanges
    }

    /** `hasTrackedChanges`. */
    predicate HasTrackedChanges()
      reads this
    {
      GetTrackedChangesArray() != []
    }

    /** `hasAnyTrackedChanges`. */
    predicate HasAnyTrackedChanges()
      reads this
    {
      trackedChanges != []
    }

    /** `hasAnyTrackedChangesFor`. */
    predicate HasAnyTrackedChangesFor(attrs: seq<string>)
      reads this
    {
      HasAnyFor(trackedChanges, attrs)
    }

    /** `getTrackedChanges`: the string of what `getTrackedChangesArray` returns. */
    method GetTrackedChanges(format: string, delimiter: string, emptyOld: string, emptyNew: string,
                             titleCase: string -> string) returns (str: string)
      ensures str == ChangesText(ArrayFor(trackedChanges, AllowList(trackable)), format, delimiter, emptyOld, emptyNew, titleCase)
    {
      str := GetChangesString(GetTrackedChangesArray(), format, delimiter, emptyOld, emptyNew, titleCase);
    }

    /** `getTrackedChangesFor`: the string of what `getTrackedChangesArrayFor` returns. */
    method GetTrackedChangesFor(attrs: seq<string>, format: string, delimiter: string, emptyOld: string, emptyNew: string,
                                titleCase: string -> string) returns (str: string)
      ensures str == ChangesText(ArrayFor(trackedChanges, attrs), format, delimiter, emptyOld, emptyNew, titleCase)
    {
      str := GetChangesString(GetTrackedChangesArrayFor(attrs), format, delimiter, emptyOld, emptyNew, titleCase);
    }

    /** `getTrackedChangesForAll`: the string of the whole ledger. */
    method GetTrackedChangesForAll(format: string, delimiter: string, emptyOld: string, emptyNew: string,
                                   titleCase: string -> string) returns (str: string)
      ensures str == ChangesText(trackedChanges, format, delimiter, emptyOld, emptyNew, titleCase)
    {
      str := GetChangesString(trackedChanges, format, delimiter, emptyOld, emptyNew, titleCase);
    }
  }
}

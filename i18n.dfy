/**
 * Localisation (client/i18n.ts): the constant `translations` table for the two
 * interface languages and `getTranslation`, which walks a dotted key through
 * it. JavaScript's dynamic property lookup is modelled on a small value domain:
 * the table's objects and strings, JavaScript's `undefined`, and the number a
 * string's `length` property yields.
 */
module I18n {
  import opened JsText

  /** `Language = 'ar' | 'en'`. */
  datatype Language = Ar | En

  /** The JavaScript values a lookup in the table can produce. */
  datatype Value = Undefined | Str(s: string) | Num(n: nat) | Obj(props: seq<Prop>)
  /** An own property of an object, in the order of the object literal. */
  datatype Prop = Prop(name: string, value: Value)

  /** JavaScript truthiness, as used by `value || key`. */
  predicate Truthy(v: Value) {
    match v
    case Undefined => false
    case Str(s) => s != ""
    case Num(n) => n != 0
    case Obj(_) => true
  }

  predicate IsDigit(c: char) {
    '0' <= c <= '9'
  }

  function DigitValue(c: char): nat
    requires IsDigit(c)
  {
    c as int - '0' as int
  }

  /** The number written by a string of decimal digits. */
  function DecimalValue(k: string): nat
    requires forall i :: 0 <= i < |k| ==> IsDigit(k[i])
  {
    if k == [] then 0 else 10 * DecimalValue(k[..|k| - 1]) + DigitValue(k[|k| - 1])
  }

  /** The index a property name denotes on a string: a canonical array index,
      that is "0" or decimal digits without a leading zero. */
  function ArrayIndex(k: string): Option<nat> {
    if k != [] && (forall i :: 0 <= i < |k| ==> IsDigit(k[i])) && (k[0] != '0' || |k| == 1)
    then Some(DecimalValue(k))
    else None
  }

  /** Whether an object has an own property of that name. */
  predicate HasProp(props: seq<Prop>, k: string) {
    props != [] && (props[0].name == k || HasProp(props[1..], k))
  }

  /** The value of the own property named `k`, `undefined` when there is none.
      The search returns the first property of that name; a JavaScript object
      literal keeps the last one, which is the same in the translation tables,
      where no object repeats a name. */
  function OwnProperty(props: seq<Prop>, k: string): (r: Value)
    ensures !HasProp(props, k) ==> r == Undefined
  {
    if props == [] then Undefined
    else if props[0].name == k then props[0].value
    else OwnProperty(props[1..], k)
  }

  /** The own property found is the one at the first position with that
      name, hence the only one in an object without repeated names. */
  lemma {:induction false} OwnPropertyAt(props: seq<Prop>, k: string, i: nat)
    requires i < |props| && props[i].name == k
    requires forall j :: 0 <= j < i ==> props[j].name != k
    ensures HasProp(props, k) && OwnProperty(props, k) == props[i].value
  {
    if i > 0 {
      OwnPropertyAt(props[1..], k, i - 1);
    }
  }

  /** One step of the loop's `value?.[k]`: optional chaining keeps `undefined`
      undefined; a string answers its `length` and its characters by index;
      an object answers its own properties. Members inherited from the
      prototypes are not part of this model. */
  function Lookup(v: Value, k: string): (r: Value)
    ensures v.Undefined? ==> r == Undefined
    ensures v.Obj? ==> r == OwnProperty(v.props, k)
    ensures v.Str? && k == "length" ==> r == Num(|v.s|)
    ensures v.Str? && k != "length" && ArrayIndex(k).Some? && ArrayIndex(k).value < |v.s| ==>
              r == Str([v.s[ArrayIndex(k).value]])
    ensures v.Str? && k != "length" && (ArrayIndex(k).None? || ArrayIndex(k).value >= |v.s|) ==> r == Undefined
    ensures v.Num? ==> r == Undefined
  {
    match v
    case Undefined => Undefined
    case Num(_) => Undefined
    case Str(s) =>
      if k == "length" then Num(|s|)
      else if ArrayIndex(k).Some? && ArrayIndex(k).value < |s| then Str([s[ArrayIndex(k).value]])
      else Undefined
    case Obj(props) => OwnProperty(props, k)
  }

  /** `value` after the loop has looked up each of `keys` in turn. */
  function Resolve(v: Value, keys: seq<string>): Value
    decreases keys
  {
    if keys == [] then v else Resolve(Lookup(v, keys[0]), keys[1..])
  }

  /** Looking up a path in two parts looks up the second part from where the
      first one ends. */
  lemma {:induction false} ResolveAppend(v: Value, a: seq<string>, b: seq<string>)
    ensures Resolve(v, a + b) == Resolve(Resolve(v, a), b)
    decreases a
  {
    if a != [] {
      assert (a + b)[1..] == a[1..] + b;
      ResolveAppend(Lookup(v, a[0]), a[1..], b);
    } else {
      assert a + b == b;
    }
  }

  /** Once a lookup misses, every later segment leaves `value` undefined. */
  lemma {:induction false} UndefinedStays(keys: seq<string>)
    ensures Resolve(Undefined, keys) == Undefined
  {
    if keys != [] {
      UndefinedStays(keys[1..]);
    }
  }

  const EnTabs: Value := Obj([
    Prop("html", Str("HTML")),
    Prop("css", Str("CSS / SCSS")),
    Prop("javascript", Str("JavaScript / TypeScript"))
  ])

  const EnToolbar: Value := Obj([
    Prop("save", Str("Save Project")),
    Prop("load", Str("Load Project")),
    Prop("download", Str("Download ZIP")),
    Prop("undo", Str("Undo")),
    Prop("redo", Str("Redo")),
    Prop("format", Str("Format Code")),
    Prop("search", Str("Search & Replace"))
  ])

  const EnEditor: Value := Obj([
    Prop("theme", Str("Theme")),
    Prop("fontSize", Str("Font Size")),
    Prop("fontFamily", Str("Font Family")),
    Prop("lightMode", Str("Light")),
    Prop("darkMode", Str("Dark"))
  ])

  const EnSounds: Value := Obj([
    Prop("title", Str("Keyboard Sounds")),
    Prop("type", Str("Sound Type")),
    Prop("mechanical", Str("Mechanical")),
    Prop("soft", Str("Soft")),
    Prop("classic", Str("Classic")),
    Prop("volume", Str("Volume")),
    Prop("mute", Str("Mute"))
  ])

  const EnAutoTyping: Value := Obj([
    Prop("title", Str("Auto-Typing")),
    Prop("code", Str("Enter Code")),
    Prop("speed", Str("Speed (chars/sec)")),
    Prop("target", Str("Target")),
    Prop("play", Str("Play")),
    Prop("pause", Str("Pause")),
    Prop("stop", Str("Stop"))
  ])

  const EnPreview: Value := Obj([
    Prop("title", Str("Live Preview")),
    Prop("libraries", Str("Libraries & CDN"))
  ])

  const EnMessages: Value := Obj([
    Prop("saved", Str("Project saved successfully")),
    Prop("loaded", Str("Project loaded successfully")),
    Prop("downloaded", Str("Project downloaded successfully")),
    Prop("error", Str("An error occurred")),
    Prop("selectProject", Str("Select a project to load"))
  ])

  /** The `en` table. */
  const EnTable: Value := Obj([
    Prop("title", Str("Code Editor")),
    Prop("subtitle", Str("Professional HTML/CSS/JavaScript Editor")),
    Prop("tabs", EnTabs),
    Prop("toolbar", EnToolbar),
    Prop("editor", EnEditor),
    Prop("sounds", EnSounds),
    Prop("autoTyping", EnAutoTyping),
    Prop("preview", EnPreview),
    Prop("messages", EnMessages)
  ])

  const ArTabs: Value := Obj([
    Prop("html", Str("HTML")),
    Prop("css", Str("CSS / SCSS")),
    Prop("javascript", Str("JavaScript / TypeScript"))
  ])

  const ArToolbar: Value := Obj([
    Prop("save", Str("حفظ المشروع")),
    Prop("load", Str("تحميل المشروع")),
    Prop("download", Str("تنزيل ZIP")),
    Prop("undo", Str("تراجع")),
    Prop("redo", Str("إعادة")),
    Prop("format", Str("تنسيق الكود")),
    Prop("search", Str("بحث واستبدال"))
  ])

  const ArEditor: Value := Obj([
    Prop("theme", Str("المظهر")),
    Prop("fontSize", Str("حجم الخط")),
    Prop("fontFamily", Str("نوع الخط")),
    Prop("lightMode", Str("فاتح")),
    Prop("darkMode", Str("داكن"))
  ])

  const ArSounds: Value := Obj([
    Prop("title", Str("أصوات لوحة المفاتيح")),
    Prop("type", Str("نوع الصوت")),
    Prop("mechanical", Str("ميكانيكي")),
    Prop("soft", Str("ناعم")),
    Prop("classic", Str("كلاسيكي")),
    Prop("volume", Str("مستوى الصوت")),
    Prop("mute", Str("كتم الصوت"))
  ])

  const ArAutoTyping: Value := Obj([
    Prop("title", Str("الكتابة التلقائية")),
    Prop("code", Str("أدخل الكود")),
    Prop("speed", Str("السرعة (حروف/ثانية)")),
    Prop("target", Str("الهدف")),
    Prop("play", Str("تشغيل")),
    Prop("pause", Str("إيقاف مؤقت")),
    Prop("stop", Str("إيقاف"))
  ])

  const ArPreview: Value := Obj([
    Prop("title", Str("المعاينة المباشرة")),
    Prop("libraries", Str("المكتبات و CDN"))
  ])

  const ArMessages: Value := Obj([
    Prop("saved", Str("تم حفظ المشروع بنجاح")),
    Prop("loaded", Str("تم تحميل المشروع بنجاح")),
    Prop("downloaded", Str("تم تنزيل المشروع بنجاح")),
    Prop("error", Str("حدث خطأ")),
    Prop("selectProject", Str("اختر مشروعًا لتحميله"))
  ])

  /** The `ar` table. */
  const ArTable: Value := Obj([
    Prop("title", Str("محرر الأكواد")),
    Prop("subtitle", Str("محرر HTML/CSS/JavaScript احترافي")),
    Prop("tabs", ArTabs),
    Prop("toolbar", ArToolbar),
    Prop("editor", ArEditor),
    Prop("sounds", ArSounds),
    Prop("autoTyping", ArAutoTyping),
    Prop("preview", ArPreview),
    Prop("messages", ArMessages)
  ])


  /** `translations[lang]`. */
  function Table(lang: Language): Value {
    match lang
    case En => EnTable
    case Ar => ArTable
  }

  /** The segments `key.split('.')` gives. */
  function Segments(key: string): seq<string> {
    Split(key, '.')
  }

  /** What `getTranslation(lang, key)` returns: the value the key's segments
      reach from the language's table when it is truthy, and the key itself
      otherwise. */
  function Translate(lang: Language, key: string): (r: Value)
    ensures Truthy(Resolve(Table(lang), Segments(key))) ==> r == Resolve(Table(lang), Segments(key))
    ensures !Truthy(Resolve(Table(lang), Segments(key))) ==> r == Str(key)
    ensures r == Str(key) || (Truthy(r) && r == Resolve(Table(lang), Segments(key)))
  {
    var value := Resolve(Table(lang), Segments(key));
    if Truthy(value) then value else Str(key)
  }

  /** `getTranslation`: split the key on dots, then look each segment up in
      turn, starting from the language's table. */
  method GetTranslation(lang: Language, key: string) returns (r: Value)
    ensures r == Translate(lang, key)
  {
    var keys := Split(key, '.');
    var value := Table(lang);
    for i := 0 to |keys|
      invariant value == Resolve(Table(lang), keys[..i])
    {
      assert keys[..i + 1] == keys[..i] + [keys[i]];
      ResolveAppend(Table(lang), keys[..i], [keys[i]]);
      value := Lookup(value, keys[i]);
    }
    assert keys[..|keys|] == keys;
    r := if Truthy(value) then value else Str(key);
  }

  /** A key some segment of which finds nothing gives back the key itself. */
  lemma MissGivesKey(lang: Language, key: string, i: nat)
    requires i < |Segments(key)|
    requires Lookup(Resolve(Table(lang), Segments(key)[..i]), Segments(key)[i]) == Undefined
    ensures Translate(lang, key) == Str(key)
  {
    var keys := Segments(key);
    assert keys == keys[..i] + [keys[i]] + keys[i + 1..];
    ResolveAppend(Table(lang), keys[..i] + [keys[i]], keys[i + 1..]);
    ResolveAppend(Table(lang), keys[..i], [keys[i]]);
    UndefinedStays(keys[i + 1..]);
  }

  /** A segment that names no property of the sub-table reached so far makes
      the whole key fall back to itself. */
  lemma UnknownNameGivesKey(lang: Language, key: string, i: nat)
    requires i < |Segments(key)|
    requires Resolve(Table(lang), Segments(key)[..i]).Obj?
    requires !HasProp(Resolve(Table(lang), Segments(key)[..i]).props, Segments(key)[i])
    ensures Translate(lang, key) == Str(key)
  {
    MissGivesKey(lang, key, i);
  }

  /** A segment past a leaf string falls back to the key, unless it is the
      string's `length` or the index of one of its characters. */
  lemma PastLeafGivesKey(lang: Language, key: string, i: nat)
    requires i < |Segments(key)|
    requires Resolve(Table(lang), Segments(key)[..i]).Str?
    requires Segments(key)[i] != "length"
    requires ArrayIndex(Segments(key)[i]).None?
             || ArrayIndex(Segments(key)[i]).value >= |Resolve(Table(lang), Segments(key)[..i]).s|
    ensures Translate(lang, key) == Str(key)
  {
    MissGivesKey(lang, key, i);
  }
  /** Leaves of the table resolve to their strings. */
  lemma TitleLeaves()
    ensures Translate(En, "title") == Str("Code Editor")
    ensures Translate(Ar, "title") == Str("محرر الأكواد")
  {
    SplitUnique("title", '.', ["title"]);
  }

  lemma NestedLeaf()
    ensures Translate(En, "messages.saved") == Str("Project saved successfully")
  {
    SplitUnique("messages.saved", '.', ["messages", "saved"]);
    ResolveMessagesSaved();
  }

  lemma ResolveMessagesSaved()
    ensures Resolve(EnTable, ["messages", "saved"]) == Str("Project saved successfully")
  {
    OwnPropertyAt(EnTable.props, "messages", 8);
    OwnPropertyAt(EnMessages.props, "saved", 0);
    assert Resolve(EnTable, ["messages", "saved"]) == Resolve(EnMessages, ["saved"]);
  }

  /** A key naming a sub-table returns the sub-table itself, an object and not
      a string, because an object is truthy. */
  lemma SubTableIsReturned()
    ensures Translate(En, "tabs") == EnTabs && EnTabs.Obj?
    ensures Translate(Ar, "tabs") == ArTabs && ArTabs.Obj?
  {
    SplitUnique("tabs", '.', ["tabs"]);
  }

  /** Looking past a leaf: an ordinary name falls back to the key. */
  lemma PastLeafName()
    ensures Translate(En, "title.x") == Str("title.x")
  {
    SplitUnique("title.x", '.', ["title", "x"]);
    var title := Lookup(EnTable, "title");
    assert title == Str("Code Editor");
    assert ArrayIndex("x").None?;
    assert Resolve(title, ["x"]) == Undefined;
    assert Resolve(EnTable, ["title", "x"]) == Undefined;
  }

  /** Looking past a leaf string still finds the string's length and its
      characters by index, which are truthy and are returned. */
  lemma PastLeafLength()
    ensures Translate(En, "title.length") == Num(11)
  {
    SplitUnique("title.length", '.', ["title", "length"]);
    ResolveTitleProperties();
  }

  lemma PastLeafIndex()
    ensures Translate(En, "title.0") == Str("C")
  {
    SplitUnique("title.0", '.', ["title", "0"]);
    ResolveTitleProperties();
  }

  lemma ResolveTitleProperties()
    ensures Resolve(EnTable, ["title", "length"]) == Num(11)
    ensures Resolve(EnTable, ["title", "0"]) == Str("C")
  {
    var title := Lookup(EnTable, "title");
    assert title == Str("Code Editor");
    assert ArrayIndex("0") == Some(0);
    assert Resolve(EnTable, ["title", "length"]) == Resolve(title, ["length"]);
    assert Resolve(EnTable, ["title", "0"]) == Resolve(title, ["0"]);
  }
  /** The entry a key path reaches by walking the table's objects only (not
      into the characters or the length of a string). */
  function EntryAt(v: Value, keys: seq<string>): Option<Value>
    decreases keys
  {
    if keys == [] then Some(v)
    else match v
      case Obj(props) =>
        if HasProp(props, keys[0]) then EntryAt(OwnProperty(props, keys[0]), keys[1..]) else None
      case _ => None
  }

  /** Whether the key names a leaf string of the language's table. */
  predicate IsLeafKey(lang: Language, key: string) {
    var e := EntryAt(Table(lang), Segments(key));
    e.Some? && e.value.Str?
  }

  /** Two values with the same key paths, leaf for leaf and object for object,
      and the property names in the same order. */
  predicate SameShape(a: Value, b: Value)
    decreases a
  {
    match a
    case Obj(p) => b.Obj? && |p| == |b.props| && SamePropsFrom(p, b.props, 0)
    case Str(_) => b.Str?
    case Num(_) => b.Num?
    case Undefined => b.Undefined?
  }

  /** The properties from index `i` on have the same names and shapes. */
  predicate SamePropsFrom(p: seq<Prop>, q: seq<Prop>, i: nat)
    requires |p| == |q|
    decreases p, |p| - i
  {
    i >= |p| || (p[i].name == q[i].name && SameShape(p[i].value, q[i].value) && SamePropsFrom(p, q, i + 1))
  }

  /** Every leaf string of a value is non-empty, hence truthy. */
  predicate LeavesNonEmpty(v: Value)
    decreases v
  {
    match v
    case Obj(p) => LeavesNonEmptyFrom(p, 0)
    case Str(s) => s != ""
    case _ => true
  }

  predicate LeavesNonEmptyFrom(p: seq<Prop>, i: nat)
    decreases p, |p| - i
  {
    i >= |p| || (LeavesNonEmpty(p[i].value) && LeavesNonEmptyFrom(p, i + 1))
  }

  /** Walking the objects of the table is what the lookup loop does too. */
  lemma {:induction false} EntryAtResolves(v: Value, keys: seq<string>)
    requires EntryAt(v, keys).Some?
    ensures Resolve(v, keys) == EntryAt(v, keys).value
    decreases keys
  {
    if keys != [] {
      EntryAtResolves(OwnProperty(v.props, keys[0]), keys[1..]);
    }
  }

  lemma {:induction false} SamePropsLookup(p: seq<Prop>, q: seq<Prop>, k: string, i: nat)
    requires |p| == |q| && i <= |p| && SamePropsFrom(p, q, i)
    ensures HasProp(p[i..], k) == HasProp(q[i..], k)
    ensures SameShape(OwnProperty(p[i..], k), OwnProperty(q[i..], k))
    decreases |p| - i
  {
    if i < |p| {
      assert p[i..][1..] == p[i + 1..] && q[i..][1..] == q[i + 1..];
      if p[i].name != k {
        SamePropsLookup(p, q, k, i + 1);
      }
    }
  }

  lemma {:induction false} SameShapeEntries(a: Value, b: Value, keys: seq<string>)
    requires SameShape(a, b)
    ensures EntryAt(a, keys).Some? == EntryAt(b, keys).Some?
    ensures EntryAt(a, keys).Some? ==> SameShape(EntryAt(a, keys).value, EntryAt(b, keys).value)
    decreases keys
  {
    if keys != [] && a.Obj? {
      SamePropsLookup(a.props, b.props, keys[0], 0);
      assert a.props[0..] == a.props && b.props[0..] == b.props;
      SameShapeEntries(OwnProperty(a.props, keys[0]), OwnProperty(b.props, keys[0]), keys[1..]);
    }
  }

  lemma {:induction false} LeavesLookup(p: seq<Prop>, k: string, i: nat)
    requires i <= |p| && LeavesNonEmptyFrom(p, i)
    ensures LeavesNonEmpty(OwnProperty(p[i..], k))
    decreases |p| - i
  {
    if i < |p| {
      assert p[i..][1..] == p[i + 1..];
      if p[i].name != k {
        LeavesLookup(p, k, i + 1);
      }
    }
  }

  lemma {:induction false} EntriesLeavesNonEmpty(v: Value, keys: seq<string>)
    requires LeavesNonEmpty(v) && EntryAt(v, keys).Some?
    ensures LeavesNonEmpty(EntryAt(v, keys).value)
    decreases keys
  {
    if keys != [] {
      LeavesLookup(v.props, keys[0], 0);
      assert v.props[0..] == v.props;
      EntriesLeavesNonEmpty(OwnProperty(v.props, keys[0]), keys[1..]);
    }
  }

  lemma TabsAgree()
    ensures SameShape(EnTabs, ArTabs) && LeavesNonEmpty(EnTabs) && LeavesNonEmpty(ArTabs)
  {
  }

  lemma ToolbarAgree()
    ensures SameShape(EnToolbar, ArToolbar) && LeavesNonEmpty(EnToolbar) && LeavesNonEmpty(ArToolbar)
  {
  }

  lemma EditorAgree()
    ensures SameShape(EnEditor, ArEditor) && LeavesNonEmpty(EnEditor) && LeavesNonEmpty(ArEditor)
  {
  }

  lemma SoundsAgree()
    ensures SameShape(EnSounds, ArSounds) && LeavesNonEmpty(EnSounds) && LeavesNonEmpty(ArSounds)
  {
  }

  lemma AutoTypingAgree()
    ensures SameShape(EnAutoTyping, ArAutoTyping) && LeavesNonEmpty(EnAutoTyping) && LeavesNonEmpty(ArAutoTyping)
  {
  }

  lemma PreviewAgree()
    ensures SameShape(EnPreview, ArPreview) && LeavesNonEmpty(EnPreview) && LeavesNonEmpty(ArPreview)
  {
  }

  lemma MessagesAgree()
    ensures SameShape(EnMessages, ArMessages) && LeavesNonEmpty(EnMessages) && LeavesNonEmpty(ArMessages)
  {
  }

  /** The two languages' tables have the same key paths, and every leaf
      string of either is non-empty. */
  lemma TablesAgree()
    ensures SameShape(EnTable, ArTable)
    ensures LeavesNonEmpty(EnTable) && LeavesNonEmpty(ArTable)
  {
    TableShapesAgree();
    TableLeavesNonEmpty();
  }

  lemma TableShapesAgree()
    ensures SameShape(EnTable, ArTable)
  {
    TabsAgree();
    ToolbarAgree();
    EditorAgree();
    SoundsAgree();
    AutoTypingAgree();
    PreviewAgree();
    MessagesAgree();
    assert SamePropsFrom(EnTable.props, ArTable.props, 9);
    assert SamePropsFrom(EnTable.props, ArTable.props, 8);
    assert SamePropsFrom(EnTable.props, ArTable.props, 7);
    assert SamePropsFrom(EnTable.props, ArTable.props, 6);
    assert SamePropsFrom(EnTable.props, ArTable.props, 5);
    assert SamePropsFrom(EnTable.props, ArTable.props, 4);
    assert SamePropsFrom(EnTable.props, ArTable.props, 3);
    assert SamePropsFrom(EnTable.props, ArTable.props, 2);
    assert SamePropsFrom(EnTable.props, ArTable.props, 1);
    assert SamePropsFrom(EnTable.props, ArTable.props, 0);
  }

  lemma TableLeavesNonEmpty()
    ensures LeavesNonEmpty(EnTable) && LeavesNonEmpty(ArTable)
  {
    TabsAgree();
    ToolbarAgree();
    EditorAgree();
    SoundsAgree();
    AutoTypingAgree();
    PreviewAgree();
    MessagesAgree();
    assert LeavesNonEmptyFrom(EnTable.props, 9) && LeavesNonEmptyFrom(ArTable.props, 9);
    assert LeavesNonEmptyFrom(EnTable.props, 8) && LeavesNonEmptyFrom(ArTable.props, 8);
    assert LeavesNonEmptyFrom(EnTable.props, 7) && LeavesNonEmptyFrom(ArTable.props, 7);
    assert LeavesNonEmptyFrom(EnTable.props, 6) && LeavesNonEmptyFrom(ArTable.props, 6);
    assert LeavesNonEmptyFrom(EnTable.props, 5) && LeavesNonEmptyFrom(ArTable.props, 5);
    assert LeavesNonEmptyFrom(EnTable.props, 4) && LeavesNonEmptyFrom(ArTable.props, 4);
    assert LeavesNonEmptyFrom(EnTable.props, 3) && LeavesNonEmptyFrom(ArTable.props, 3);
    assert LeavesNonEmptyFrom(EnTable.props, 2) && LeavesNonEmptyFrom(ArTable.props, 2);
    assert LeavesNonEmptyFrom(EnTable.props, 1) && LeavesNonEmptyFrom(ArTable.props, 1);
    assert LeavesNonEmptyFrom(EnTable.props, 0) && LeavesNonEmptyFrom(ArTable.props, 0);
  }

  /** A key is a leaf key in one language exactly when it is one in the
      other. */
  lemma LeafKeysAgree(key: string)
    ensures IsLeafKey(En, key) <==> IsLeafKey(Ar, key)
  {
    TablesAgree();
    SameShapeEntries(EnTable, ArTable, Segments(key));
  }

  /** A leaf key translates to its non-empty leaf string, never to the key's
      fallback. */
  lemma LeafKeyTranslates(lang: Language, key: string)
    requires IsLeafKey(lang, key)
    ensures Translate(lang, key) == EntryAt(Table(lang), Segments(key)).value
    ensures Translate(lang, key).Str? && Translate(lang, key).s != ""
  {
    EntryAtResolves(Table(lang), Segments(key));
    TablesAgree();
    EntriesLeavesNonEmpty(Table(lang), Segments(key));
  }
}

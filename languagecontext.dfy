// The client's translation store: a table per language of sections of
// texts, the current language, and `t`, which looks a dotted key up in
// the table of the current language.
module LanguageContext {
  import opened Wrappers
  import opened Strings

  /** One named text of a section. */
  datatype Entry = Entry(name: string, text: string)

  /** One named section of a language's table. */
  datatype SectionEntry = SectionEntry(name: string, entries: seq<Entry>)

  /** A section's texts, in the order the source lists them; object keys are unique. */
  type Section = seq<Entry>

  /** A language's sections, in the order the source lists them. */
  type Table = seq<SectionEntry>

  const EnglishCommon: Section := [
    Entry("continue", "Continue"), Entry("cancel", "Cancel"), Entry("confirm", "Confirm"),
    Entry("back", "Back"), Entry("save", "Save"), Entry("edit", "Edit"),
    Entry("delete", "Delete"), Entry("loading", "Loading...")]

  const EnglishAuth: Section := [
    Entry("login", "Login"), Entry("register", "Register"), Entry("email", "Email"),
    Entry("password", "Password"), Entry("name", "Name"),
    Entry("welcome", "Welcome to DeliveryApp"), Entry("loginPrompt", "Sign in to your account"),
    Entry("registerPrompt", "Create a new account")]

  const EnglishHome: Section := [
    Entry("title", "Delivery App"), Entry("subtitle", "Fast and reliable delivery service"),
    Entry("quickOrder", "Quick Order"), Entry("trackPackage", "Track Package")]

  const EnglishOrder: Section := [
    Entry("step1Title", "Sender & Recipient Info"),
    Entry("step2Title", "Choose Delivery Method"), Entry("senderInfo", "Sender Information"),
    Entry("recipientInfo", "Recipient Information"), Entry("parcelInfo", "Parcel Information"),
    Entry("weight", "Weight (kg)"), Entry("dimensions", "Dimensions (cm)"),
    Entry("value", "Value ($)"), Entry("description", "Description"),
    Entry("fragile", "Fragile"), Entry("robot", "Ground Robot"), Entry("drone", "Drone"),
    Entry("recommendations", "Recommended Options")]

  const ChineseCommon: Section := [
    Entry("continue", "继续"), Entry("cancel", "取消"), Entry("confirm", "确认"), Entry("back", "返回"),
    Entry("save", "保存"), Entry("edit", "编辑"), Entry("delete", "删除"), Entry("loading", "加载中...")]

  const ChineseAuth: Section := [
    Entry("login", "登录"), Entry("register", "注册"), Entry("email", "邮箱"), Entry("password", "密码"),
    Entry("name", "姓名"), Entry("welcome", "欢迎使用配送应用"), Entry("loginPrompt", "登录您的账户"),
    Entry("registerPrompt", "创建新账户")]

  const ChineseHome: Section := [
    Entry("title", "配送应用"), Entry("subtitle", "快速可靠的配送服务"), Entry("quickOrder", "快速下单"),
    Entry("trackPackage", "追踪包裹")]

  const ChineseOrder: Section := [
    Entry("step1Title", "寄件人和收件人信息"), Entry("step2Title", "选择配送方式"),
    Entry("senderInfo", "寄件人信息"), Entry("recipientInfo", "收件人信息"), Entry("parcelInfo", "包裹信息"),
    Entry("weight", "重量 (公斤)"), Entry("dimensions", "尺寸 (厘米)"), Entry("value", "价值 (美元)"),
    Entry("description", "描述"), Entry("fragile", "易碎品"), Entry("robot", "地面机器人"),
    Entry("drone", "无人机"), Entry("recommendations", "推荐选项")]

  const English: Table := [
    SectionEntry("common", EnglishCommon), SectionEntry("auth", EnglishAuth),
    SectionEntry("home", EnglishHome), SectionEntry("order", EnglishOrder)]

  const Chinese: Table := [
    SectionEntry("common", ChineseCommon), SectionEntry("auth", ChineseAuth),
    SectionEntry("home", ChineseHome), SectionEntry("order", ChineseOrder)]

  function EntryNames(s: Section): (names: seq<string>)
    ensures |names| == |s| && forall i :: 0 <= i < |s| ==> names[i] == s[i].name
  {
    seq(|s|, i requires 0 <= i < |s| => s[i].name)
  }

  function SectionNames(t: Table): (names: seq<string>)
    ensures |names| == |t| && forall i :: 0 <= i < |t| ==> names[i] == t[i].name
  {
    seq(|t|, i requires 0 <= i < |t| => t[i].name)
  }

  /** The position of a property name among an object's keys. */
  function IndexOf(names: seq<string>, k: string): (r: Option<nat>)
    ensures r.Some? ==> r.value < |names| && names[r.value] == k
    ensures r.None? <==> k !in names
  {
    if names == [] then None
    else if names[0] == k then Some(0)
    else match IndexOf(names[1..], k)
      case None => None
      case Some(i) => Some(i + 1)
  }

  /** With distinct names, a name is found at its own position. */
  lemma {:induction false} IndexOfDistinct(names: seq<string>, i: nat)
    requires Distinct(names) && i < |names|
    ensures IndexOf(names, names[i]) == Some(i)
  {
    if i > 0 {
      assert names[1..][i - 1] == names[i];
      IndexOfDistinct(names[1..], i - 1);
    }
  }

  predicate Distinct(names: seq<string>)
  {
    forall i, j :: 0 <= i < j < |names| ==> names[i] != names[j]
  }

  /** What `result` holds while `t` walks down the key path. */
  datatype Value =
    | TableValue(table: Table)
    | SectionValue(section: Section)
    | Text(text: string)
    | Undefined

  /** `result?.[k]`. */
  function Step(v: Value, k: string): Value
  {
    match v
    case TableValue(t) =>
      (match IndexOf(SectionNames(t), k) case None => Undefined case Some(i) => SectionValue(t[i].entries))
    case SectionValue(s) =>
      (match IndexOf(EntryNames(s), k) case None => Undefined case Some(i) => Text(s[i].text))
    case Text(_) => Undefined
    case Undefined => Undefined
  }

  /** The value reached from v along the keys, one step per key. */
  function Walk(v: Value, keys: seq<string>): Value
    decreases |keys|
  {
    if keys == [] then v else Walk(Step(v, keys[0]), keys[1..])
  }

  /** JavaScript truthiness of a value `t` can reach: only '' and undefined are falsy. */
  predicate Truthy(v: Value)
  {
    match v
    case Text(s) => s != ""
    case Undefined => false
    case _ => true
  }

  /** `translations[language]`. */
  function Root(language: string): Value
  {
    if language == "en" then TableValue(English)
    else if language == "zh" then TableValue(Chinese)
    else Undefined
  }

  /** What `t(key)` returns in the given language: the value found, or the key itself. */
  function Translate(language: string, key: string): Value
  {
    var v := Walk(Root(language), SplitOn(key, '.'));
    if Truthy(v) then v else Text(key)
  }

  /** The key is found: `t` returns what the walk reached rather than the key. */
  predicate Found(language: string, key: string)
  {
    Truthy(Walk(Root(language), SplitOn(key, '.')))
  }

  /** Every text of a section is non-empty. */
  predicate SectionNonEmpty(s: Section)
  {
    forall i :: 0 <= i < |s| ==> s[i].text != ""
  }

  /** Distinct entry names and no empty text. */
  predicate SectionWellFormed(s: Section)
  {
    Distinct(EntryNames(s)) && SectionNonEmpty(s)
  }

  /** Distinct section names and well-formed sections. */
  predicate WellFormed(t: Table)
  {
    Distinct(SectionNames(t)) && forall i :: 0 <= i < |t| ==> SectionWellFormed(t[i].entries)
  }

  /** The two tables list the same section names and, section by section, the same entry names. */
  predicate SameNames(x: Table, y: Table)
  {
    SectionNames(x) == SectionNames(y)
    && forall i :: 0 <= i < |x| ==> EntryNames(x[i].entries) == EntryNames(y[i].entries)
  }

  /** The "common" sections: well formed, with the same names in both languages. */
  lemma CommonSections()
    ensures SectionWellFormed(EnglishCommon) && SectionWellFormed(ChineseCommon)
    ensures EntryNames(EnglishCommon) == EntryNames(ChineseCommon)
  {
  }

  /** The "auth" sections: well formed, with the same names in both languages. */
  lemma AuthSections()
    ensures SectionWellFormed(EnglishAuth) && SectionWellFormed(ChineseAuth)
    ensures EntryNames(EnglishAuth) == EntryNames(ChineseAuth)
  {
  }

  /** The "home" sections: well formed, with the same names in both languages. */
  lemma HomeSections()
    ensures SectionWellFormed(EnglishHome) && SectionWellFormed(ChineseHome)
    ensures EntryNames(EnglishHome) == EntryNames(ChineseHome)
  {
  }

  /** The "order" sections: well formed, with the same names in both languages. */
  lemma OrderSections()
    ensures SectionWellFormed(EnglishOrder) && SectionWellFormed(ChineseOrder)
    ensures EntryNames(EnglishOrder) == EntryNames(ChineseOrder)
  {
    assert EntryNames(EnglishOrder) == EntryNames(ChineseOrder);
    assert Distinct(EntryNames(EnglishOrder)) by {
      OrderNamesDistinct();
    }
  }

  lemma OrderNamesDistinct()
    ensures Distinct(EntryNames(EnglishOrder))
  {
  }

  /** Both tables are well formed and define the same keys. */
  lemma TablesAgree()
    ensures WellFormed(English) && WellFormed(Chinese)
    ensures SameNames(English, Chinese)
  {
    CommonSections();
    AuthSections();
    HomeSections();
    OrderSections();
  }

  /** In a well-formed table, a "section.name" key yields that entry's text. */
  lemma WalkEntry(t: Table, i: nat, j: nat)
    requires WellFormed(t) && i < |t| && j < |t[i].entries|
    requires '.' !in t[i].name && '.' !in t[i].entries[j].name
    ensures var section := t[i].name;
      var name := t[i].entries[j].name;
      var v := Walk(TableValue(t), SplitOn(section + "." + name, '.'));
      v == Text(t[i].entries[j].text) && Truthy(v)
  {
    var section := t[i].name;
    var name := t[i].entries[j].name;
    SplitOnNoSeparator(name, '.');
    SplitOnPiece(section, '.', name);
    assert SplitOn(section + "." + name, '.') == [section, name];
    assert [section, name][1..] == [name];
    IndexOfDistinct(SectionNames(t), i);
    IndexOfDistinct(EntryNames(t[i].entries), j);
    var v1 := Step(TableValue(t), section);
    assert v1 == SectionValue(t[i].entries);
    var v2 := Step(v1, name);
    assert v2 == Text(t[i].entries[j].text);
    assert Walk(TableValue(t), [section, name]) == Walk(v1, [name]) == Walk(v2, []);
  }

  /** Every entry of either table is reached by its "section.name" key. */
  lemma TranslateEntry(language: string, i: nat, j: nat)
    requires language == "en" || language == "zh"
    requires Root(language).TableValue?
    requires i < |Root(language).table| && j < |Root(language).table[i].entries|
    requires '.' !in Root(language).table[i].name && '.' !in Root(language).table[i].entries[j].name
    ensures var t := Root(language).table;
      Translate(language, t[i].name + "." + t[i].entries[j].name) == Text(t[i].entries[j].text)
  {
    TablesAgree();
    WalkEntry(Root(language).table, i, j);
  }

  lemma {:induction false} WalkUndefined(keys: seq<string>)
    ensures Walk(Undefined, keys) == Undefined
    decreases |keys|
  {
    if keys != [] {
      WalkUndefined(keys[1..]);
    }
  }

  /** A language without a table translates every key to itself. */
  lemma TranslateUnknownLanguage(language: string, key: string)
    requires language != "en" && language != "zh"
    ensures Translate(language, key) == Text(key)
  {
    WalkUndefined(SplitOn(key, '.'));
  }

  /** Two values reached at the same depth of two tables with the same keys. */
  predicate SameShape(a: Value, b: Value)
  {
    match a
    case TableValue(x) => b.TableValue? && SameNames(x, b.table) && WellFormed(x) && WellFormed(b.table)
    case SectionValue(x) =>
      b.SectionValue? && EntryNames(x) == EntryNames(b.section) && SectionNonEmpty(x) && SectionNonEmpty(b.section)
    case Text(x) => b.Text? && x != "" && b.text != ""
    case Undefined => b.Undefined?
  }

  lemma StepShape(a: Value, b: Value, k: string)
    requires SameShape(a, b)
    ensures SameShape(Step(a, k), Step(b, k))
  {
  }

  lemma {:induction false} WalkShape(a: Value, b: Value, keys: seq<string>)
    requires SameShape(a, b)
    ensures SameShape(Walk(a, keys), Walk(b, keys))
    decreases |keys|
  {
    if keys != [] {
      StepShape(a, b, keys[0]);
      WalkShape(Step(a, keys[0]), Step(b, keys[0]), keys[1..]);
    }
  }

  /**
   * Every key is found in both languages or in neither, and a text in
   * one is a text in the other.
   */
  lemma LanguagesAgree(key: string)
    ensures Translate("en", key).Text? <==> Translate("zh", key).Text?
    ensures Found("en", key) <==> Found("zh", key)
  {
    TablesAgree();
    var keys := SplitOn(key, '.');
    assert SameShape(Root("en"), Root("zh"));
    WalkShape(Root("en"), Root("zh"), keys);
  }

  class LanguageProvider {
    var language: string

    constructor()
      ensures language == "en"
    {
      language := "en";
    }

    /** `setLanguage`: the language is replaced. */
    method SetLanguage(lang: string)
      modifies this
      ensures language == lang
    {
      language := lang;
    }

    /** `t`: the walk down the dotted key, step by step. */
    method T(key: string) returns (r: Value)
      ensures r == Translate(language, key)
    {
      var keys := SplitOn(key, '.');
      var result := Root(language);
      var i := 0;
      while i < |keys|
        invariant 0 <= i <= |keys|
        invariant Walk(result, keys[i..]) == Walk(Root(language), keys)
      {
        assert keys[i..][1..] == keys[i + 1..];
        result := Step(result, keys[i]);
        i := i + 1;
      }
      r := if Truthy(result) then result else Text(key);
    }
  }
}

/**
 * The character sheet of the role-playing app: the rule that shrinks a long name, the status
 * line split into one indicator per status, and the text and length class of the skill
 * buttons. What the sheet writes into the page is returned as values (`Indicators`,
 * `ActionButton`) or kept in a map from a button's action name to what it shows.
 */
module Sheet {
  import opened Wrappers
  import opened Text

  /** The status that means "nothing wrong". */
  const Normal: string := "正常"

  /** A name longer than this many UTF-16 code units gets the `long` class. */
  const LongName: nat := 6

  /** `updateCharacterData`: the name element carries `long` exactly for names whose `length`
      (UTF-16 code units) is over six. */
  function NameIsLong(name: string): (r: bool)
    ensures r <==> Utf16Length(name) > LongName
  {
    Utf16Length(name) > LongName
  }

  /** Four emoji make a long name: each counts as two code units. */
  lemma FourEmojiNameIsLong()
    ensures NameIsLong("\U{1F600}\U{1F600}\U{1F600}\U{1F600}")
  {
    var e := "\U{1F600}";
    AstralCountsTwice();
    Utf16LengthAppend(e, e);
    Utf16LengthAppend(e + e, e);
    Utf16LengthAppend(e + e + e, e);
    assert e + e + e + e == "\U{1F600}\U{1F600}\U{1F600}\U{1F600}";
  }

  /** The separators of the status line: an ASCII comma, a full-width comma or white space. */
  predicate IsSeparator(c: char)
  {
    c == ',' || c == '，' || IsSpace(c)
  }

  predicate NoSeparator(s: string)
  {
    forall i :: 0 <= i < |s| ==> !IsSeparator(s[i])
  }

  /** The length of the run of non-separators `s` starts with. */
  function RunLength(s: string): (n: nat)
    ensures n <= |s| && NoSeparator(s[..n])
    ensures n < |s| ==> IsSeparator(s[n])
  {
    if s == [] || IsSeparator(s[0]) then 0
    else
      var m := RunLength(s[1..]);
      assert s[..1 + m] == [s[0]] + s[1..][..m];
      1 + m
  }

  /**
   * `status.split(/[,，\s]+/)` without its empty pieces: the maximal runs of non-separators,
   * in order. Every piece is non-empty and holds no separator.
   */
  function Words(s: string): (r: seq<string>)
    ensures forall w :: w in r ==> w != [] && NoSeparator(w)
    decreases |s|
  {
    if s == [] then []
    else if IsSeparator(s[0]) then Words(s[1..])
    else
      var n := RunLength(s);
      [s[..n]] + Words(s[n..])
  }

  function Concat(ws: seq<string>): string
  {
    if ws == [] then [] else ws[0] + Concat(ws[1..])
  }

  /** The non-separator characters of `s`, in order. */
  function Letters(s: string): string
  {
    if s == [] then [] else (if IsSeparator(s[0]) then [] else [s[0]]) + Letters(s[1..])
  }

  lemma {:induction false} ConcatAppend(a: seq<string>, b: seq<string>)
    ensures Concat(a + b) == Concat(a) + Concat(b)
  {
    if a == [] {
      assert a + b == b;
    } else {
      assert (a + b)[0] == a[0];
      assert (a + b)[1..] == a[1..] + b;
      ConcatAppend(a[1..], b);
    }
  }

  lemma {:induction false} LettersAppend(a: string, b: string)
    ensures Letters(a + b) == Letters(a) + Letters(b)
  {
    if a == [] {
      assert a + b == b;
    } else {
      assert (a + b)[0] == a[0];
      assert (a + b)[1..] == a[1..] + b;
      LettersAppend(a[1..], b);
    }
  }

  lemma {:induction false} LettersOfClean(s: string)
    requires NoSeparator(s)
    ensures Letters(s) == s
  {
    if s != [] {
      LettersOfClean(s[1..]);
    }
  }

  /** Splitting loses no character but the separators: the pieces, put back together, are the
      status's non-separator characters in order. */
  lemma {:induction false} WordsKeepLetters(s: string)
    ensures Concat(Words(s)) == Letters(s)
    decreases |s|
  {
    if s == [] {
    } else if IsSeparator(s[0]) {
      WordsKeepLetters(s[1..]);
    } else {
      var n := RunLength(s);
      assert s == s[..n] + s[n..];
      WordsKeepLetters(s[n..]);
      LettersOfClean(s[..n]);
      LettersAppend(s[..n], s[n..]);
    }
  }

  /** A status with no separator is one piece. */
  lemma {:induction false} WordsOfClean(s: string)
    requires s != [] && NoSeparator(s)
    ensures Words(s) == [s]
  {
    var n := RunLength(s);
    assert n == |s|;
    assert s[..n] == s;
  }

  /** The run that starts `a` ends inside `a` when `a` is followed by a separator. */
  lemma {:induction false} RunLengthBeforeSeparator(a: string, c: char, b: string)
    requires IsSeparator(c)
    ensures RunLength(a + [c] + b) == RunLength(a)
  {
    if a != [] && !IsSeparator(a[0]) {
      assert (a + [c] + b)[1..] == a[1..] + [c] + b;
      RunLengthBeforeSeparator(a[1..], c, b);
    }
  }

  /** A separator splits the status into what comes before it and what comes after it. */
  lemma {:induction false} WordsSplitAtSeparator(a: string, c: char, b: string)
    requires IsSeparator(c)
    ensures Words(a + [c] + b) == Words(a) + Words(b)
    decreases |a|
  {
    var s := a + [c] + b;
    if a == [] {
      assert s[1..] == b;
    } else if IsSeparator(a[0]) {
      assert s[1..] == a[1..] + [c] + b;
      WordsSplitAtSeparator(a[1..], c, b);
    } else {
      var n := RunLength(a);
      RunLengthBeforeSeparator(a, c, b);
      assert s[..n] == a[..n];
      assert s[n..] == a[n..] + [c] + b;
      WordsSplitAtSeparator(a[n..], c, b);
      assert Words(s) == [a[..n]] + Words(s[n..]);
    }
  }

  /** `ws` without its `正常` pieces, in order. */
  function DropNormal(ws: seq<string>): (r: seq<string>)
    ensures |r| <= |ws|
    ensures forall w :: w in r <==> w in ws && w != Normal
  {
    if ws == [] then []
    else (if ws[0] == Normal then [] else [ws[0]]) + DropNormal(ws[1..])
  }

  /** The statuses of a status line: its pieces, `正常` ones dropped. */
  function StatusTokens(s: string): (r: seq<string>)
    ensures forall w :: w in r ==> w != [] && w != Normal && NoSeparator(w)
  {
    DropNormal(Words(s))
  }

  lemma {:induction false} DropNormalAppend(a: seq<string>, b: seq<string>)
    ensures DropNormal(a + b) == DropNormal(a) + DropNormal(b)
  {
    if a == [] {
      assert a + b == b;
    } else {
      assert (a + b)[0] == a[0];
      assert (a + b)[1..] == a[1..] + b;
      DropNormalAppend(a[1..], b);
    }
  }

  /** The statuses keep their order: those before a separator come first, then those after it. */
  lemma StatusTokensSplit(a: string, c: char, b: string)
    requires IsSeparator(c)
    ensures StatusTokens(a + [c] + b) == StatusTokens(a) + StatusTokens(b)
  {
    WordsSplitAtSeparator(a, c, b);
    DropNormalAppend(Words(a), Words(b));
  }

  /**
   * `updateStatusIndicators(status)`: the container is hidden (`None`) for a missing or empty
   * status, for `正常`, and for a status with no statuses left once split; otherwise it shows
   * one indicator per status, in order.
   */
  function Indicators(status: Option<string>): (r: Option<seq<string>>)
    ensures r.None? <==> status.None? || status.value == [] || status.value == Normal || StatusTokens(status.value) == []
    ensures r.Some? ==> r.value == StatusTokens(status.value) && r.value != []
  {
    if status.None? || status.value == [] || status.value == Normal then None
    else
      var tokens := StatusTokens(status.value);
      if tokens == [] then None else Some(tokens)
  }

  /** The early `正常` test only saves work: the container is hidden exactly when there is no
      status or the status yields no statuses. */
  lemma HiddenIffNoStatuses(status: Option<string>)
    ensures Indicators(status).None? <==> status.None? || StatusTokens(status.value) == []
  {
    if status.Some? && status.value == Normal {
      assert forall i :: 0 <= i < |Normal| ==> !IsSeparator(Normal[i]);
      WordsOfClean(Normal);
    }
  }

  /** A skill on the sheet: its name and its value, `None` for `null`. */
  datatype Skill = Skill(name: string, value: Option<string>)

  /** The six skill groups, in the order the buttons are updated. */
  datatype Skills = Skills(occupation: Skill, hobby: Skill, weapon: Skill, item: Skill, note: Skill, magic: Skill)

  /** The buttons' `data-action` names, in the same order. */
  const Actions: seq<string> := ["occupation-skills", "hobby-skills", "weapons", "items", "notes", "magic"]

  /** The action names start with six different letters. */
  lemma ActionsDistinct()
    ensures forall i, j :: 0 <= i < j < |Actions| ==> Actions[i] != Actions[j]
  {
    assert forall i, j :: 0 <= i < j < |Actions| ==> Actions[i][0] != Actions[j][0];
  }

  function SkillList(s: Skills): (r: seq<Skill>)
    ensures |r| == |Actions|
  {
    [s.occupation, s.hobby, s.weapon, s.item, s.note, s.magic]
  }

  /** `adjustButtonText`: after clearing the three classes, at most one is added. */
  datatype LengthClass = Plain | LongText | VeryLong | ExtremelyLong

  /** The class for a text by its `length` in UTF-16 code units: over 12, over 9, over 6, or none. */
  function LengthClassOf(text: string): (r: LengthClass)
    ensures r == ExtremelyLong <==> Utf16Length(text) > 12
    ensures r == VeryLong <==> 9 < Utf16Length(text) <= 12
    ensures r == LongText <==> 6 < Utf16Length(text) <= 9
    ensures r == Plain <==> Utf16Length(text) <= 6
  {
    var n := Utf16Length(text);
    if n > 12 then ExtremelyLong
    else if n > 9 then VeryLong
    else if n > 6 then LongText
    else Plain
  }

  function Rank(c: LengthClass): nat
  {
    match c
    case Plain => 0
    case LongText => 1
    case VeryLong => 2
    case ExtremelyLong => 3
  }

  /** A longer text never gets a smaller class. */
  lemma LengthClassMonotone(a: string, b: string)
    requires Utf16Length(a) <= Utf16Length(b)
    ensures Rank(LengthClassOf(a)) <= Rank(LengthClassOf(b))
  {
  }

  /** For text within the Basic Multilingual Plane, such as Chinese skill names, the class
      follows the number of characters. */
  lemma LengthClassOfBmp(text: string)
    requires forall i :: 0 <= i < |text| ==> text[i] as int < 0x1_0000
    ensures LengthClassOf(text) == ExtremelyLong <==> |text| > 12
    ensures LengthClassOf(text) == Plain <==> |text| <= 6
  {
    Utf16LengthBmp(text);
  }

  /** The button text: `name：value` when the value is not null, else the name alone. */
  function ButtonText(s: Skill): (r: string)
    ensures s.value.None? ==> r == s.name
    ensures s.value.Some? ==>
      |r| == |s.name| + 1 + |s.value.value| && r[..|s.name|] == s.name
      && r[|s.name|] == '：' && r[|s.name| + 1..] == s.value.value
  {
    if s.value.Some? then s.name + "：" + s.value.value else s.name
  }

  /** What a skill button shows: its text and the length class that text gets. */
  datatype ActionButton = ActionButton(text: string, lengthClass: LengthClass)

  /** The content a skill gives its button. */
  function ButtonFor(s: Skill): (b: ActionButton)
    ensures b.lengthClass == LengthClassOf(b.text)
    ensures b.text == ButtonText(s)
  {
    var text := ButtonText(s);
    ActionButton(text, LengthClassOf(text))
  }

  /**
   * `updateActionButtons(skills)`: `page` maps the action names of the buttons present on the
   * page to what they show. Each present button whose skill has a non-empty name gets that
   * skill's text and class; buttons whose skill has an empty name, and every other entry of
   * the map, stay as they were, and no button is added.
   */
  method UpdateActionButtons(page: map<string, ActionButton>, skills: Skills) returns (updated: map<string, ActionButton>)
    ensures updated.Keys == page.Keys
    ensures forall k :: 0 <= k < |Actions| && Actions[k] in page ==>
      updated[Actions[k]] == (if SkillList(skills)[k].name != [] then ButtonFor(SkillList(skills)[k]) else page[Actions[k]])
    ensures forall a :: a in page && a !in Actions ==> updated[a] == page[a]
  {
    ActionsDistinct();
    updated := FillButtons(page, Actions, SkillList(skills));
  }

  /** The loop of `updateActionButtons` over distinct action names `names`, the `k`-th of which
      shows the `k`-th skill of `list`. */
  method FillButtons(page: map<string, ActionButton>, names: seq<string>, list: seq<Skill>) returns (updated: map<string, ActionButton>)
    requires |names| == |list|
    requires forall i, j :: 0 <= i < j < |names| ==> names[i] != names[j]
    ensures updated.Keys == page.Keys
    ensures forall k :: 0 <= k < |names| && names[k] in page ==>
      updated[names[k]] == (if list[k].name != [] then ButtonFor(list[k]) else page[names[k]])
    ensures forall a :: a in page && a !in names ==> updated[a] == page[a]
  {
    var shown := seq(|list|, i requires 0 <= i < |list| => ButtonFor(list[i]));
    updated := page;
    for k := 0 to |names|
      invariant updated.Keys == page.Keys
      invariant forall j :: 0 <= j < k && names[j] in page ==>
        updated[names[j]] == (if list[j].name != [] then shown[j] else page[names[j]])
      invariant forall a :: a in page && a !in names[..k] ==> updated[a] == page[a]
    {
      var action := names[k];
      assert names[..k + 1] == names[..k] + [action];
      if action in updated && list[k].name != [] {
        updated := updated[action := shown[k]];
      }
    }
    assert names[..|names|] == names;
  }
}

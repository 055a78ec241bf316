/** The interactive drill-down browser: NavigateInteractive in
    csharp13/Common/DirectoryOutput.cs and DisplayTable in
    csharp13/DirectoryOutput.cs and csharp14/DirectoryOutput.cs.

    A stack of statistics records holds the way down from the root; its top
    is the directory on screen. Each round shows the directory, a menu of
    its subdirectories (largest first) with Up and Exit, and acts on the
    choice the prompt returns. The prompt's answers are an input sequence;
    the console itself is not modelled, only what each round shows. The
    stack is a sequence whose last element is the top. */
module Navigation {
  import opened Seqs
  import opened FileSystem
  import TextUtils

  /** How the browser reads a DirectoryStatistics record: its Path,
      DirectorySize, FileCount and Subdirectories. */
  datatype Shape<!T> = Shape(path: T -> string, size: T -> nat, count: T -> nat, kids: T -> seq<T>)

  function Top<T>(stack: seq<T>): T
    requires |stack| > 0
  {
    stack[|stack| - 1]
  }

  /** `d => d.DirectorySize`, the sort key. */
  function SizeKey<T>(sh: Shape<T>): T -> int
  {
    x => sh.size(x)
  }

  /** `Subdirectories.OrderByDescending(d => d.DirectorySize)`: a stable
      sort, largest first; children of equal size keep their order. */
  function SortedKids<T>(sh: Shape<T>, s: T): (r: seq<T>)
    ensures multiset(r) == multiset(sh.kids(s))
    ensures NonIncreasing(r, SizeKey(sh))
    ensures forall v :: WithKey(r, SizeKey(sh), v) == WithKey(sh.kids(s), SizeKey(sh), v)
    ensures |r| == |sh.kids(s)|
  {
    var r := SortDescending(sh.kids(s), SizeKey(sh));
    assert forall v :: WithKey(r, SizeKey(sh), v) == WithKey(sh.kids(s), SizeKey(sh), v) by {
      forall v
        ensures WithKey(r, SizeKey(sh), v) == WithKey(sh.kids(s), SizeKey(sh), v)
      {
        SortDescendingStable(sh.kids(s), SizeKey(sh), v);
      }
    }
    assert |r| == |multiset(r)| == |multiset(sh.kids(s))| == |sh.kids(s)|;
    r
  }

  // ---------------------------------------------------------------------
  // The menu
  // ---------------------------------------------------------------------

  /** What a menu line shows. The padding and number formatting of the
      labels are not modelled, only what goes into them. */
  datatype Label =
    | Caption(text: string)
      // NavigateInteractive: the escaped last path segment and the file count
    | NameAndFiles(name: string, files: nat)
      // DisplayTable: the escaped TrimPath of the path, the file count and the size
    | PathFilesAndSize(name: string, files: nat, size: nat)

  /** MenuChoice: the path the program acts on and the label it shows. */
  datatype MenuChoice = MenuChoice(path: string, line: Label)

  /** MenuChoice.Up and MenuChoice.Exit (and the same two choices that
      NavigateInteractive builds itself). */
  const UpChoice := MenuChoice("up", Caption("[[[[..]] Up]]"))
  const ExitChoice := MenuChoice("exit", Caption("[[Exit]]"))

  /** One character more in front of a string whose escaping is known. */
  lemma EscapedPush(c: char, t: string, s: string, et: string, es: string)
    requires s == [c] + t && TextUtils.Escaped(t) == et && es == TextUtils.EscapeChar(c) + et
    ensures TextUtils.Escaped(s) == es
  {
    TextUtils.EscapedCons(c, t);
  }

  /** The Up caption is `EscapeMarkup("[[..] Up]")`. */
  lemma UpCaptionEscaped()
    ensures UpChoice.line.text == TextUtils.Escaped("[[..] Up]")
  {
    UpCaptionFront();
    EscapedPush('[', "[..] Up]", "[[..] Up]", "[[..]] Up]]", "[[[[..]] Up]]");
  }

  lemma UpCaptionFront()
    ensures TextUtils.Escaped("[..] Up]") == "[[..]] Up]]"
  {
    UpCaptionMiddle();
    EscapedPush('[', "..] Up]", "[..] Up]", "..]] Up]]", "[[..]] Up]]");
  }

  lemma UpCaptionMiddle()
    ensures TextUtils.Escaped("..] Up]") == "..]] Up]]"
  {
    UpCaptionTail();
    EscapedPush('.', "] Up]", ".] Up]", "]] Up]]", ".]] Up]]");
    EscapedPush('.', ".] Up]", "..] Up]", ".]] Up]]", "..]] Up]]");
  }

  lemma UpCaptionTail()
    ensures TextUtils.Escaped("] Up]") == "]] Up]]"
  {
    UpCaptionEnd();
    EscapedPush(' ', "Up]", " Up]", "Up]]", " Up]]");
    EscapedPush(']', " Up]", "] Up]", " Up]]", "]] Up]]");
  }

  lemma UpCaptionEnd()
    ensures TextUtils.Escaped("Up]") == "Up]]"
  {
    EscapedPush(']', "", "]", "", "]]");
    EscapedPush('p', "]", "p]", "]]", "p]]");
    EscapedPush('U', "p]", "Up]", "p]]", "Up]]");
  }

  /** The Exit caption is `EscapeMarkup("[Exit]")`. */
  lemma ExitCaptionEscaped()
    ensures ExitChoice.line.text == TextUtils.Escaped("[Exit]")
  {
    ExitCaptionTail();
    EscapedPush('x', "it]", "xit]", "it]]", "xit]]");
    EscapedPush('E', "xit]", "Exit]", "xit]]", "Exit]]");
    EscapedPush('[', "Exit]", "[Exit]", "Exit]]", "[[Exit]]");
  }

  lemma ExitCaptionTail()
    ensures TextUtils.Escaped("it]") == "it]]"
  {
    EscapedPush(']', "", "]", "", "]]");
    EscapedPush('t', "]", "t]", "]]", "t]]");
    EscapedPush('i', "t]", "it]", "t]]", "it]]");
  }

  /** The two browsers: NavigateInteractive (csharp13/Common) and
      DisplayTable (csharp13 and csharp14). */
  datatype Variant = Navigator | MenuTable

  /** The menu line for one subdirectory. */
  function ChildChoice<T>(v: Variant, sh: Shape<T>, s: T): (c: MenuChoice)
    ensures c.path == sh.path(s) && !c.line.Caption?
  {
    match v
    case Navigator =>
      MenuChoice(sh.path(s), NameAndFiles(TextUtils.Escaped(BaseName(sh.path(s))), sh.count(s)))
    case MenuTable =>
      MenuChoice(sh.path(s), PathFilesAndSize(TextUtils.Escaped(TextUtils.TrimPath(sh.path(s))), sh.count(s), sh.size(s)))
  }

  /** One menu line per subdirectory, in the order given. */
  function ChildChoices<T>(v: Variant, sh: Shape<T>, subs: seq<T>): seq<MenuChoice>
  {
    if subs == [] then [] else ChildChoices(v, sh, subs[..|subs| - 1]) + [ChildChoice(v, sh, subs[|subs| - 1])]
  }

  lemma {:induction false} ChildChoicesLength<T>(v: Variant, sh: Shape<T>, subs: seq<T>)
    ensures |ChildChoices(v, sh, subs)| == |subs|
    decreases |subs|
  {
    if subs != [] {
      ChildChoicesLength(v, sh, subs[..|subs| - 1]);
    }
  }

  lemma {:induction false} ChildChoicesAt<T>(v: Variant, sh: Shape<T>, subs: seq<T>, i: nat)
    requires i < |subs|
    ensures |ChildChoices(v, sh, subs)| == |subs|
    ensures ChildChoices(v, sh, subs)[i] == ChildChoice(v, sh, subs[i])
    decreases |subs|
  {
    var n := |subs| - 1;
    ChildChoicesLength(v, sh, subs[..n]);
    if i < n {
      ChildChoicesAt(v, sh, subs[..n], i);
      assert subs[..n][i] == subs[i];
    }
  }

  /** The menu lines of the subdirectories, one per subdirectory, in order. */
  lemma ChildChoicesIndex<T>(v: Variant, sh: Shape<T>, subs: seq<T>)
    ensures |ChildChoices(v, sh, subs)| == |subs|
    ensures forall i :: 0 <= i < |subs| ==> ChildChoices(v, sh, subs)[i] == ChildChoice(v, sh, subs[i])
  {
    ChildChoicesLength(v, sh, subs);
    forall i | 0 <= i < |subs|
      ensures ChildChoices(v, sh, subs)[i] == ChildChoice(v, sh, subs[i])
    {
      ChildChoicesAt(v, sh, subs, i);
    }
  }

  /** One more line added by the foreach over the subdirectories. */
  lemma ChildChoicesAppend<T>(front: seq<MenuChoice>, v: Variant, sh: Shape<T>, subs: seq<T>, j: nat)
    requires j < |subs|
    ensures (front + ChildChoices(v, sh, subs[..j])) + [ChildChoice(v, sh, subs[j])] == front + ChildChoices(v, sh, subs[..j + 1])
  {
    assert subs[..j + 1][..j] == subs[..j];
  }

  /** The menu of one round: Up when the stack holds more than the root;
      then NavigateInteractive puts Exit before the subdirectories and
      DisplayTable puts it after them. */
  function Menu<T>(v: Variant, sh: Shape<T>, stack: seq<T>): seq<MenuChoice>
    requires |stack| > 0
  {
    var up := if |stack| > 1 then [UpChoice] else [];
    var children := ChildChoices(v, sh, SortedKids(sh, Top(stack)));
    match v
    case Navigator => up + [ExitChoice] + children
    case MenuTable => up + children + [ExitChoice]
  }

  /** Where the subdirectory lines start in the menu. */
  function ChildOffset(v: Variant, depth: nat): nat
  {
    (if depth > 1 then 1 else 0) + (if v == Navigator then 1 else 0)
  }

  /** Up is offered exactly when the stack holds more than the root, Exit
      always, and every line between them is a subdirectory of the
      directory on screen, largest first, each subdirectory once. */
  lemma MenuLayout<T>(v: Variant, sh: Shape<T>, stack: seq<T>)
    requires |stack| > 0
    ensures UpChoice in Menu(v, sh, stack) <==> |stack| > 1
    ensures ExitChoice in Menu(v, sh, stack)
    ensures v == MenuTable ==> Menu(v, sh, stack)[|Menu(v, sh, stack)| - 1] == ExitChoice
    ensures v == Navigator ==> Menu(v, sh, stack)[ChildOffset(v, |stack|) - 1] == ExitChoice
    ensures |Menu(v, sh, stack)| == |sh.kids(Top(stack))| + (if |stack| > 1 then 2 else 1)
    ensures forall i :: 0 <= i < |sh.kids(Top(stack))| ==>
      Menu(v, sh, stack)[ChildOffset(v, |stack|) + i] == ChildChoice(v, sh, SortedKids(sh, Top(stack))[i])
  {
    MenuEnds(v, sh, stack);
    var sorted := SortedKids(sh, Top(stack));
    forall i | 0 <= i < |sorted|
      ensures Menu(v, sh, stack)[ChildOffset(v, |stack|) + i] == ChildChoice(v, sh, sorted[i])
    {
      MenuChildAt(v, sh, stack, i);
    }
  }

  /** No subdirectory line is a caption. */
  lemma {:induction false} ChildChoicesNoCaption<T>(v: Variant, sh: Shape<T>, subs: seq<T>)
    ensures forall c :: c in ChildChoices(v, sh, subs) ==> !c.line.Caption?
    decreases |subs|
  {
    if subs != [] {
      ChildChoicesNoCaption(v, sh, subs[..|subs| - 1]);
    }
  }

  /** The fixed lines of the menu and its length. */
  lemma MenuEnds<T>(v: Variant, sh: Shape<T>, stack: seq<T>)
    requires |stack| > 0
    ensures UpChoice in Menu(v, sh, stack) <==> |stack| > 1
    ensures ExitChoice in Menu(v, sh, stack)
    ensures v == MenuTable ==> Menu(v, sh, stack)[|Menu(v, sh, stack)| - 1] == ExitChoice
    ensures v == Navigator ==> Menu(v, sh, stack)[ChildOffset(v, |stack|) - 1] == ExitChoice
    ensures |Menu(v, sh, stack)| == |sh.kids(Top(stack))| + (if |stack| > 1 then 2 else 1)
  {
    var children := ChildChoices(v, sh, SortedKids(sh, Top(stack)));
    ChildChoicesIndex(v, sh, SortedKids(sh, Top(stack)));
    ChildChoicesNoCaption(v, sh, SortedKids(sh, Top(stack)));
    var up: seq<MenuChoice> := if |stack| > 1 then [UpChoice] else [];
    assert UpChoice.path != ExitChoice.path;
    assert UpChoice !in children;
    match v
    case Navigator =>
      assert Menu(v, sh, stack) == (up + [ExitChoice]) + children;
    case MenuTable =>
      assert Menu(v, sh, stack) == (up + children) + [ExitChoice];
  }

  /** The menu line at offset `i` among the subdirectory lines. */
  lemma MenuChildAt<T>(v: Variant, sh: Shape<T>, stack: seq<T>, i: nat)
    requires |stack| > 0
    requires i < |sh.kids(Top(stack))|
    ensures ChildOffset(v, |stack|) + i < |Menu(v, sh, stack)|
    ensures Menu(v, sh, stack)[ChildOffset(v, |stack|) + i] == ChildChoice(v, sh, SortedKids(sh, Top(stack))[i])
  {
    var sorted := SortedKids(sh, Top(stack));
    var children := ChildChoices(v, sh, sorted);
    ChildChoicesIndex(v, sh, sorted);
    var up: seq<MenuChoice> := if |stack| > 1 then [UpChoice] else [];
    var front := if v == Navigator then up + [ExitChoice] else up;
    assert |front| == ChildOffset(v, |stack|);
    IndexAfter(front, children, i);
    match v
    case Navigator =>
      assert Menu(v, sh, stack) == front + children;
    case MenuTable =>
      IndexBefore(front + children, [ExitChoice], |front| + i);
      assert Menu(v, sh, stack) == (front + children) + [ExitChoice];
  }

  /** The size shown on a DisplayTable subdirectory line. */
  lemma MenuSizeAt<T>(sh: Shape<T>, stack: seq<T>, i: nat)
    requires |stack| > 0
    requires i < |sh.kids(Top(stack))|
    ensures ChildOffset(MenuTable, |stack|) + i < |Menu(MenuTable, sh, stack)|
    ensures Menu(MenuTable, sh, stack)[ChildOffset(MenuTable, |stack|) + i].line.PathFilesAndSize?
    ensures Menu(MenuTable, sh, stack)[ChildOffset(MenuTable, |stack|) + i].line.size == SizeKey(sh)(SortedKids(sh, Top(stack))[i])
  {
    MenuChildAt(MenuTable, sh, stack, i);
  }

  /** Each line of the DisplayTable menu shows a size no larger than the
      line above, and every subdirectory is listed. */
  lemma MenuLargestFirst<T>(sh: Shape<T>, stack: seq<T>, i: nat, j: nat)
    requires |stack| > 0
    requires i <= j < |sh.kids(Top(stack))|
    ensures var m := Menu(MenuTable, sh, stack);
      var off := ChildOffset(MenuTable, |stack|);
      && off + j < |m|
      && m[off + i].line.PathFilesAndSize? && m[off + j].line.PathFilesAndSize?
      && m[off + i].line.size >= m[off + j].line.size
  {
    MenuSizeAt(sh, stack, i);
    MenuSizeAt(sh, stack, j);
    NonIncreasingPairwise(SortedKids(sh, Top(stack)), SizeKey(sh), i, j);
  }

  lemma MenuListsEveryChild<T>(v: Variant, sh: Shape<T>, stack: seq<T>, s: T)
    requires |stack| > 0
    requires s in sh.kids(Top(stack))
    ensures ChildChoice(v, sh, s) in Menu(v, sh, stack)
  {
    var sorted := SortedKids(sh, Top(stack));
    assert s in multiset(sorted);
    var i :| 0 <= i < |sorted| && sorted[i] == s;
    MenuChildAt(v, sh, stack, i);
  }

  /** The foreach over the sorted subdirectories: one Add per directory. */
  method AddChildren<T>(menu: seq<MenuChoice>, v: Variant, sh: Shape<T>, subs: seq<T>) returns (r: seq<MenuChoice>)
    ensures r == menu + ChildChoices(v, sh, subs)
  {
    r := menu;
    for j := 0 to |subs|
      invariant r == menu + ChildChoices(v, sh, subs[..j])
    {
      ChildChoicesAppend(menu, v, sh, subs, j);
      r := r + [ChildChoice(v, sh, subs[j])];
    }
    assert subs[..|subs|] == subs;
  }

  /** Builds the menu of one round the way the loop body does: the Up line,
      Exit where the variant puts it, and one Add per subdirectory. */
  method BuildMenu<T>(v: Variant, sh: Shape<T>, stack: seq<T>) returns (menu: seq<MenuChoice>)
    requires |stack| > 0
    ensures menu == Menu(v, sh, stack)
  {
    var up: seq<MenuChoice> := [];
    if |stack| > 1 {
      up := [UpChoice];
    }
    var subs := SortedKids(sh, stack[|stack| - 1]);
    assert subs == SortedKids(sh, Top(stack));
    match v
    case Navigator =>
      menu := AddChildren(up + [ExitChoice], v, sh, subs);
    case MenuTable =>
      menu := AddChildren(up, v, sh, subs);
      menu := menu + [ExitChoice];
  }

  // ---------------------------------------------------------------------
  // The table of NavigateInteractive (BuildTable)
  // ---------------------------------------------------------------------

  /** A row: path, file count and size (shown in MB, rounded to two
      places; the rounding is not modelled). */
  datatype TableRow = TableRow(path: string, files: nat, size: nat)

  /** Rows and the two footer totals. */
  datatype Table = Table(rows: seq<TableRow>, files: nat, size: nat)

  function RowOf<T>(sh: Shape<T>, s: T): TableRow
  {
    TableRow(sh.path(s), sh.count(s), sh.size(s))
  }

  function Rows<T>(sh: Shape<T>, subs: seq<T>): seq<TableRow>
  {
    if subs == [] then [] else Rows(sh, subs[..|subs| - 1]) + [RowOf(sh, subs[|subs| - 1])]
  }

  /** The table BuildTable builds: the subdirectories largest first, and
      footers summed over the subdirectories alone. */
  function TableOf<T>(sh: Shape<T>, s: T): Table
  {
    Table(Rows(sh, SortedKids(sh, s)), SumOf(sh.kids(s), sh.count), SumOf(sh.kids(s), sh.size))
  }

  lemma {:induction false} RowsIndex<T>(sh: Shape<T>, subs: seq<T>)
    ensures |Rows(sh, subs)| == |subs|
    ensures forall i :: 0 <= i < |subs| ==> Rows(sh, subs)[i] == RowOf(sh, subs[i])
    decreases |subs|
  {
    if subs != [] {
      RowsIndex(sh, subs[..|subs| - 1]);
    }
  }

  lemma RowsAppend<T>(front: seq<TableRow>, sh: Shape<T>, subs: seq<T>, j: nat)
    requires j < |subs|
    ensures (front + Rows(sh, subs[..j])) + [RowOf(sh, subs[j])] == front + Rows(sh, subs[..j + 1])
  {
    assert subs[..j + 1][..j] == subs[..j];
  }

  function RowFiles(r: TableRow): nat { r.files }

  function RowSize(r: TableRow): nat { r.size }

  /** The table lists every subdirectory once, largest first, and its
      footers are the totals of the rows above them. */
  lemma TableLists<T>(sh: Shape<T>, s: T)
    ensures |TableOf(sh, s).rows| == |sh.kids(s)|
    ensures forall i, j :: 0 <= i <= j < |sh.kids(s)| ==> TableOf(sh, s).rows[i].size >= TableOf(sh, s).rows[j].size
    ensures multiset(SortedKids(sh, s)) == multiset(sh.kids(s))
    ensures TableOf(sh, s).files == SumOf(TableOf(sh, s).rows, RowFiles)
    ensures TableOf(sh, s).size == SumOf(TableOf(sh, s).rows, RowSize)
  {
    var sorted := SortedKids(sh, s);
    var rows := Rows(sh, sorted);
    RowsIndex(sh, sorted);
    forall i, j | 0 <= i <= j < |sh.kids(s)|
      ensures rows[i].size >= rows[j].size
    {
      NonIncreasingPairwise(sorted, SizeKey(sh), i, j);
    }
    SumOfPermutation(sh.kids(s), sorted, sh.count);
    SumOfPointwise(sorted, rows, sh.count, RowFiles);
    SumOfPermutation(sh.kids(s), sorted, sh.size);
    SumOfPointwise(sorted, rows, sh.size, RowSize);
  }

  /** BuildTable: one AddRow per subdirectory in descending size order,
      then the footers. */
  method BuildTable<T>(sh: Shape<T>, stats: T) returns (table: Table)
    ensures table == TableOf(sh, stats)
  {
    var subs := SortedKids(sh, stats);
    var rows: seq<TableRow> := [];
    for j := 0 to |subs|
      invariant rows == Rows(sh, subs[..j])
    {
      RowsAppend([], sh, subs, j);
      assert [] + Rows(sh, subs[..j]) == Rows(sh, subs[..j]);
      rows := rows + [RowOf(sh, subs[j])];
    }
    assert subs[..|subs|] == subs;
    table := Table(rows, SumOf(sh.kids(stats), sh.count), SumOf(sh.kids(stats), sh.size));
  }

  // ---------------------------------------------------------------------
  // One round's choice
  // ---------------------------------------------------------------------

  /** OrdinalIgnoreCase on the ASCII letters. */
  function Upper(c: char): char
  {
    if 'a' <= c <= 'z' then (c as int - 32) as char else c
  }

  predicate SameIgnoringCase(a: string, b: string)
  {
    |a| == |b| && forall i :: 0 <= i < |a| ==> Upper(a[i]) == Upper(b[i])
  }

  /** Where `FirstOrDefault` stops: the first subdirectory whose path
      matches the chosen path ignoring case, or |subs| when none does. */
  function FirstMatch<T>(sh: Shape<T>, subs: seq<T>, p: string): (k: nat)
    ensures k <= |subs|
    ensures forall i :: 0 <= i < k ==> !SameIgnoringCase(sh.path(subs[i]), p)
    ensures k < |subs| ==> SameIgnoringCase(sh.path(subs[k]), p)
  {
    if subs == [] then 0
    else if SameIgnoringCase(sh.path(subs[0]), p) then 0
    else 1 + FirstMatch(sh, subs[1..], p)
  }

  /** The result of acting on one choice: the loop ends or goes on with a
      new stack. */
  datatype Move<T> = Quit | Continue(stack: seq<T>)

  /** `choice.Path == "exit"` / `selection == MenuChoice.Exit`. */
  predicate Quits(v: Variant, c: MenuChoice)
  {
    match v
    case Navigator => c.path == "exit"
    case MenuTable => c == ExitChoice
  }

  /** `choice.Path == "up"` / `selection == MenuChoice.Up`. */
  predicate GoesUp(v: Variant, c: MenuChoice)
  {
    match v
    case Navigator => c.path == "up"
    case MenuTable => c == UpChoice
  }

  /** What one answer does to the stack. Exit ends the loop and leaves the
      stack; Up pops exactly one record; any other choice pushes the first
      subdirectory (largest first) whose path matches it ignoring case, and
      leaves the stack alone when none does. */
  function Step<T>(v: Variant, sh: Shape<T>, stack: seq<T>, c: MenuChoice): (r: Move<T>)
    requires |stack| > 0
    ensures r.Quit? <==> Quits(v, c)
    ensures !Quits(v, c) && GoesUp(v, c) ==> r == Continue(stack[..|stack| - 1])
    ensures !Quits(v, c) && !GoesUp(v, c) ==>
      var subs := SortedKids(sh, Top(stack));
      var k := FirstMatch(sh, subs, c.path);
      && r.Continue?
      && (r.stack == stack <==> k == |subs|)
      && (k < |subs| ==> r.stack == stack + [subs[k]] && subs[k] in sh.kids(Top(stack)))
  {
    if Quits(v, c) then Quit
    else if GoesUp(v, c) then Continue(stack[..|stack| - 1])
    else
      var subs := SortedKids(sh, Top(stack));
      var k := FirstMatch(sh, subs, c.path);
      if k < |subs| then
        assert subs[k] in multiset(sh.kids(Top(stack)));
        assert |stack + [subs[k]]| != |stack|;
        Continue(stack + [subs[k]])
      else Continue(stack)
  }

  // ---------------------------------------------------------------------
  // A whole session
  // ---------------------------------------------------------------------

  /** What one round puts on the console: the escaped path of the
      directory, its table (NavigateInteractive only) and the menu. */
  datatype Screen = Screen(title: string, table: Option<Table>, menu: seq<MenuChoice>)

  /** How the loop stopped: Exit was chosen; the stack emptied; or the
      prompt is still waiting because the answers ran out. */
  datatype Ending = Exited | Emptied | Waiting

  datatype Session<T> = Session(screens: seq<Screen>, stack: seq<T>, ending: Ending)

  function ScreenOf<T>(v: Variant, sh: Shape<T>, stack: seq<T>): Screen
    requires |stack| > 0
  {
    Screen(TextUtils.Escaped(sh.path(Top(stack))),
           if v == Navigator then Some(TableOf(sh, Top(stack))) else None,
           Menu(v, sh, stack))
  }

  /** The rounds the loop runs from `stack` on the given answers. */
  function Run<T>(v: Variant, sh: Shape<T>, stack: seq<T>, answers: seq<MenuChoice>): Session<T>
    decreases |answers|
  {
    if stack == [] then Session([], [], Emptied)
    else if answers == [] then Session([ScreenOf(v, sh, stack)], stack, Waiting)
    else match Step(v, sh, stack, answers[0])
      case Quit => Session([ScreenOf(v, sh, stack)], stack, Exited)
      case Continue(next) =>
        var rest := Run(v, sh, next, answers[1..]);
        Session([ScreenOf(v, sh, stack)] + rest.screens, rest.stack, rest.ending)
  }

  /** Rounds already shown, followed by a session that goes on. */
  function After<T>(shown: seq<Screen>, rest: Session<T>): Session<T>
  {
    Session(shown + rest.screens, rest.stack, rest.ending)
  }

  /** Acting on the answer to a round that showed `stack`: Exit gives the
      one-screen session; any other answer continues from the new stack. */
  lemma RunStep<T>(v: Variant, sh: Shape<T>, stack: seq<T>, answers: seq<MenuChoice>)
    requires |stack| > 0 && |answers| > 0
    ensures Step(v, sh, stack, answers[0]).Quit? ==>
      Run(v, sh, stack, answers) == Session([ScreenOf(v, sh, stack)], stack, Exited)
    ensures Step(v, sh, stack, answers[0]).Continue? ==>
      Run(v, sh, stack, answers) == After([ScreenOf(v, sh, stack)], Run(v, sh, Step(v, sh, stack, answers[0]).stack, answers[1..]))
  {
  }

  lemma AfterAfter<T>(a: seq<Screen>, b: seq<Screen>, rest: Session<T>)
    ensures After(a, After(b, rest)) == After(a + b, rest)
  {
    assert a + (b + rest.screens) == (a + b) + rest.screens;
  }

  /** Each record lies among the Subdirectories of the record below it. */
  ghost predicate Chain<T>(sh: Shape<T>, stack: seq<T>)
  {
    forall i :: 0 < i < |stack| ==> stack[i] in sh.kids(stack[i - 1])
  }

  /** An answer the prompt can return: a line of the menu on screen. A
      subdirectory whose path is literally "up" would be taken for Up by
      NavigateInteractive; such a line is not counted as an answer here. */
  ghost predicate Offered<T>(v: Variant, sh: Shape<T>, stack: seq<T>, c: MenuChoice)
    requires |stack| > 0
  {
    c in Menu(v, sh, stack) && (v == Navigator && c.path == "up" ==> c == UpChoice)
  }

  /** Every answer of the session was offered on the screen it answers. */
  ghost predicate Answered<T>(v: Variant, sh: Shape<T>, stack: seq<T>, answers: seq<MenuChoice>)
    decreases |answers|
  {
    stack == [] || answers == [] ||
    (Offered(v, sh, stack, answers[0]) &&
     match Step(v, sh, stack, answers[0])
     case Quit => true
     case Continue(next) => Answered(v, sh, next, answers[1..]))
  }

  /** Whatever the answers, every pushed record is a subdirectory of the
      record below it, and popping keeps the records beneath. */
  lemma StepKeepsChain<T>(v: Variant, sh: Shape<T>, stack: seq<T>, c: MenuChoice)
    requires |stack| > 0 && Chain(sh, stack)
    ensures Step(v, sh, stack, c).Continue? ==> Chain(sh, Step(v, sh, stack, c).stack)
    ensures Step(v, sh, stack, c).Continue? ==> Step(v, sh, stack, c).stack[..|stack| - 1] == stack[..|stack| - 1]
  {
  }

  /** An offered answer never pops the root: Up is on the menu only below
      the root. */
  lemma StepKeepsRoot<T>(v: Variant, sh: Shape<T>, stack: seq<T>, c: MenuChoice)
    requires |stack| > 0 && Offered(v, sh, stack, c)
    ensures Step(v, sh, stack, c).Continue? ==>
      |Step(v, sh, stack, c).stack| > 0 && Step(v, sh, stack, c).stack[0] == stack[0]
  {
    MenuLayout(v, sh, stack);
  }

  /** Starting from a chain, a session answered from its menus never
      empties the stack: it ends by Exit or waits for an answer, the root
      stays at the bottom and the stack stays a chain of subdirectories. */
  lemma {:induction false} RunKeepsRoot<T>(v: Variant, sh: Shape<T>, stack: seq<T>, answers: seq<MenuChoice>)
    requires |stack| > 0 && Chain(sh, stack)
    requires Answered(v, sh, stack, answers)
    ensures Run(v, sh, stack, answers).ending != Emptied
    ensures |Run(v, sh, stack, answers).stack| > 0
    ensures Run(v, sh, stack, answers).stack[0] == stack[0]
    ensures Chain(sh, Run(v, sh, stack, answers).stack)
    decreases |answers|
  {
    if answers != [] {
      var m := Step(v, sh, stack, answers[0]);
      if m.Continue? {
        StepKeepsChain(v, sh, stack, answers[0]);
        StepKeepsRoot(v, sh, stack, answers[0]);
        RunKeepsRoot(v, sh, m.stack, answers[1..]);
      }
    }
  }

  /** Every round consumes one answer: there is at most one screen more
      than answers, and exactly one more when the prompt is left waiting. */
  lemma {:induction false} RunConsumesAnswers<T>(v: Variant, sh: Shape<T>, stack: seq<T>, answers: seq<MenuChoice>)
    ensures |Run(v, sh, stack, answers).screens| <= |answers| + 1
    ensures Run(v, sh, stack, answers).ending == Waiting ==> |Run(v, sh, stack, answers).screens| == |answers| + 1
    decreases |answers|
  {
    if stack != [] && answers != [] {
      RunStep(v, sh, stack, answers);
      var m := Step(v, sh, stack, answers[0]);
      if m.Continue? {
        RunConsumesAnswers(v, sh, m.stack, answers[1..]);
      }
    }
  }

  /** A session that exited stopped on an Exit answer: the one its last
      screen was answered with. */
  lemma {:induction false} RunExitsOnExit<T>(v: Variant, sh: Shape<T>, stack: seq<T>, answers: seq<MenuChoice>)
    ensures Run(v, sh, stack, answers).ending == Exited ==>
      && 1 <= |Run(v, sh, stack, answers).screens| <= |answers|
      && Quits(v, answers[|Run(v, sh, stack, answers).screens| - 1])
    decreases |answers|
  {
    if stack != [] && answers != [] {
      RunStep(v, sh, stack, answers);
      var m := Step(v, sh, stack, answers[0]);
      if m.Continue? {
        var rest := Run(v, sh, m.stack, answers[1..]);
        assert Run(v, sh, stack, answers) == After([ScreenOf(v, sh, stack)], rest);
        RunExitsOnExit(v, sh, m.stack, answers[1..]);
        if rest.ending == Exited {
          assert |Run(v, sh, stack, answers).screens| == 1 + |rest.screens|;
          assert answers[1..][|rest.screens| - 1] == answers[|rest.screens|];
        }
      }
    }
  }

  /** Choosing a subdirectory's line pushes that subdirectory when no
      other subdirectory's path matches it ignoring case. */
  lemma ChosenChildPushed<T>(v: Variant, sh: Shape<T>, stack: seq<T>, s: T)
    requires |stack| > 0 && s in sh.kids(Top(stack))
    requires forall k :: k in sh.kids(Top(stack)) && SameIgnoringCase(sh.path(k), sh.path(s)) ==> k == s
    requires v == Navigator ==> sh.path(s) != "exit" && sh.path(s) != "up"
    ensures Step(v, sh, stack, ChildChoice(v, sh, s)) == Continue(stack + [s])
  {
    var c := ChildChoice(v, sh, s);
    var sorted := SortedKids(sh, Top(stack));
    assert s in multiset(sorted);
    var i :| 0 <= i < |sorted| && sorted[i] == s;
    assert SameIgnoringCase(sh.path(s), c.path);
    var k := FirstMatch(sh, sorted, c.path);
    assert k <= i;
    assert sorted[k] in multiset(sh.kids(Top(stack)));
  }

  /** Two subdirectories of "r" whose paths differ only in case. */
  const TwinBig := Stat("r/A", 2, 0)
  const TwinSmall := Stat("r/a", 1, 0)
  const TwinRoot := Stat("r", 3, 0)
  const Twins: Shape<Stat> :=
    Shape((s: Stat) => s.path, (s: Stat) => s.size as int, (s: Stat) => s.count,
          (s: Stat) => if s == TwinRoot then [TwinSmall, TwinBig] else [])

  lemma TwinsSorted()
    ensures SortedKids(Twins, TwinRoot) == [TwinBig, TwinSmall]
  {
    assert Twins.kids(TwinRoot) == [TwinSmall, TwinBig];
    assert SortedKids(Twins, TwinRoot) == SortDescending([TwinSmall, TwinBig], SizeKey(Twins));
  }

  /** Any answer naming "r/a" that is neither Exit nor Up pushes "r/A". */
  lemma TwinsStep(c: MenuChoice)
    requires c.path == "r/a" && !Quits(MenuTable, c) && !GoesUp(MenuTable, c)
    ensures Step(MenuTable, Twins, [TwinRoot], c) == Continue([TwinRoot, TwinBig])
  {
    TwinsSorted();
    assert SameIgnoringCase(Twins.path(TwinBig), c.path);
    assert FirstMatch(Twins, [TwinBig, TwinSmall], c.path) == 0;
  }

  /** Choosing the smaller twin's line pushes the larger twin: it is the
      first match in descending order. */
  lemma CaseTwinsPushFirst()
    ensures Step(MenuTable, Twins, [TwinRoot], ChildChoice(MenuTable, Twins, TwinSmall)) == Continue([TwinRoot, TwinBig])
  {
    var c := ChildChoice(MenuTable, Twins, TwinSmall);
    assert c.path == "r/a";
    TwinsStep(c);
  }

  // ---------------------------------------------------------------------
  // The loops
  // ---------------------------------------------------------------------

  /** NavigateInteractive (csharp13/Common/DirectoryOutput.cs): push the
      root, then show each round's directory, table and menu and act on the
      answer, until Exit, an empty stack, or the answers run out. */
  method NavigateInteractive<T>(sh: Shape<T>, rootStats: T, answers: seq<MenuChoice>)
    returns (screens: seq<Screen>, stack: seq<T>, ending: Ending)
    ensures Session(screens, stack, ending) == Run(Navigator, sh, [rootStats], answers)
  {
    stack := [rootStats];
    screens := [];
    ending := Emptied;
    var i := 0;
    while |stack| > 0
      invariant i <= |answers|
      invariant Run(Navigator, sh, [rootStats], answers) == After(screens, Run(Navigator, sh, stack, answers[i..]))
      invariant stack == [] ==> ending == Emptied
      decreases |answers| - i
    {
      ghost var shown, before, rest := screens, stack, answers[i..];
      var current := stack[|stack| - 1];
      var title := TextUtils.EscapeMarkupByReplace(sh.path(current));
      var table := BuildTable(sh, current);
      var choices := BuildMenu(Navigator, sh, stack);
      screens := screens + [Screen(title, Some(table), choices)];
      assert Screen(title, Some(table), choices) == ScreenOf(Navigator, sh, before);
      if i == |answers| {
        ending := Waiting;
        break;
      }
      var choice := answers[i];
      RunStep(Navigator, sh, before, rest);
      assert rest[0] == choice && rest[1..] == answers[i + 1..];
      i := i + 1;
      if choice.path == "exit" {
        ending := Exited;
        break;
      }
      if choice.path == "up" {
        stack := stack[..|stack| - 1];
      } else {
        var subs := SortedKids(sh, current);
        var k := FirstMatch(sh, subs, choice.path);
        if k < |subs| {
          stack := stack + [subs[k]];
        }
      }
      assert Step(Navigator, sh, before, choice) == Continue(stack);
      assert Run(Navigator, sh, before, rest) == After([ScreenOf(Navigator, sh, before)], Run(Navigator, sh, stack, answers[i..]));
      AfterAfter(shown, [ScreenOf(Navigator, sh, before)], Run(Navigator, sh, stack, answers[i..]));
    }
  }

  /** DisplayTable (csharp13/DirectoryOutput.cs, csharp14/DirectoryOutput.cs):
      the same loop with the menu of MenuChoice.Up, the subdirectories and
      MenuChoice.Exit, and no table. */
  method DisplayTable<T>(sh: Shape<T>, stats: T, answers: seq<MenuChoice>)
    returns (screens: seq<Screen>, stack: seq<T>, ending: Ending)
    ensures Session(screens, stack, ending) == Run(MenuTable, sh, [stats], answers)
  {
    stack := [stats];
    screens := [];
    ending := Emptied;
    var i := 0;
    while |stack| > 0
      invariant i <= |answers|
      invariant Run(MenuTable, sh, [stats], answers) == After(screens, Run(MenuTable, sh, stack, answers[i..]))
      invariant stack == [] ==> ending == Emptied
      decreases |answers| - i
    {
      ghost var shown, before, rest := screens, stack, answers[i..];
      var current := stack[|stack| - 1];
      var title := TextUtils.EscapeMarkup(sh.path(current));
      var menu := BuildMenu(MenuTable, sh, stack);
      screens := screens + [Screen(title, None, menu)];
      assert Screen(title, None, menu) == ScreenOf(MenuTable, sh, before);
      if i == |answers| {
        ending := Waiting;
        break;
      }
      var selection := answers[i];
      RunStep(MenuTable, sh, before, rest);
      assert rest[0] == selection && rest[1..] == answers[i + 1..];
      i := i + 1;
      if selection == ExitChoice {
        ending := Exited;
        break;
      } else if selection == UpChoice {
        stack := stack[..|stack| - 1];
      } else {
        var subs := SortedKids(sh, current);
        var k := FirstMatch(sh, subs, selection.path);
        if k < |subs| {
          stack := stack + [subs[k]];
        }
      }
      assert Step(MenuTable, sh, before, selection) == Continue(stack);
      assert Run(MenuTable, sh, before, rest) == After([ScreenOf(MenuTable, sh, before)], Run(MenuTable, sh, stack, answers[i..]));
      AfterAfter(shown, [ScreenOf(MenuTable, sh, before)], Run(MenuTable, sh, stack, answers[i..]));
    }
  }
}

// The widget calls of the remote interface: what each is recorded as, and which call a recorded frame is
// drawn as. The two tables and the one of argument kinds were written separately; here they are compared.
module RemoteWidgets {
  import opened Options
  import opened RemoteCodec

  datatype Kind = IsBool | IsInt | IsFloat | IsStr | IsDouble

  predicate Has(e: Elem, k: Kind) {
    match k
    case IsBool => e.Bool?
    case IsInt => e.Int?
    case IsFloat => e.Float?
    case IsStr => e.Str?
    case IsDouble => e.Double?
  }

  ghost predicate HasKinds(args: seq<Elem>, kinds: seq<Kind>) {
    |args| == |kinds| && forall k :: 0 <= k < |kinds| ==> Has(args[k], kinds[k])
  }

  const END_POPUP: Byte := 0x92
  const END_TABLE: Byte := 0x94

  // The arguments a step takes; every step not listed takes none.
  function Kinds(step: Byte): seq<Kind> {
    match step
    case 0x80 => [IsStr, IsInt, IsStr, IsInt]
    case 0x81 => [IsStr, IsFloat, IsFloat]
    case 0x82 => [IsInt, IsStr, IsBool]
    case 0x84 => [IsStr, IsBool]
    case 0x87 => [IsStr]
    case 0x88 => [IsStr, IsInt, IsInt, IsInt, IsInt, IsInt]
    case 0x89 => [IsStr, IsFloat, IsFloat, IsFloat, IsFloat, IsInt]
    case 0x8A => [IsStr, IsInt, IsInt, IsInt, IsInt]
    case 0x8B => [IsStr, IsBool]
    case 0x8C => [IsStr, IsFloat, IsFloat, IsFloat, IsInt, IsInt]
    case 0x8D => [IsStr, IsStr, IsInt, IsInt]
    case 0x8E => [IsStr]
    case 0x8F => [IsFloat, IsFloat, IsFloat, IsFloat, IsStr]
    case 0x90 => [IsStr, IsInt]
    case 0x91 => [IsStr, IsInt]
    case 0x93 => [IsStr, IsInt, IsInt, IsFloat, IsFloat, IsFloat]
    case 0x95 => [IsInt, IsFloat]
    case 0x96 => [IsInt]
    case 0x97 => [IsFloat]
    case 0x99 => [IsStr, IsFloat, IsFloat, IsFloat, IsStr, IsInt]
    case 0x9A => [IsStr, IsDouble, IsDouble, IsDouble, IsStr, IsInt]
    case _ => []
  }

  // ---- widget calls

  datatype Widget =
    | FillWidth | SameLine | BeginDisabled | EndDisabled | Separator
    | Combo(name: Text, item: Int32, items: Text, height: Int32)
    | Button(name: Text, width: Float, tall: Float)
    | Columns(count: Int32, id: Text, border: bool)
    | NextColumn
    | RadioButton(name: Text, active: bool)
    | BeginGroup | EndGroup
    | LeftLabel(text: Text)
    | SliderInt(name: Text, n: Int32, least: Int32, most: Int32, format: Int32, flags: Int32)
    | SliderFloatWithSteps(name: Text, x: Float, low: Float, high: Float, step: Float, format: Int32)
    | InputInt(name: Text, n: Int32, least: Int32, most: Int32, flags: Int32)
    | InputFloat(name: Text, x: Float, low: Float, high: Float, pattern: Text, flags: Int32)
    | InputDouble(name: Text, d: Double, slow: Double, fast: Double, pattern: Text, flags: Int32)
    | Checkbox(name: Text, active: bool)
    | SliderFloat(name: Text, x: Float, low: Float, high: Float, format: Int32, flags: Int32)
    | InputText(name: Text, text: Text, size: Int32, flags: Int32)
    | PlainText(text: Text)
    | TextColored(red: Float, green: Float, blue: Float, alpha: Float, text: Text)
    | OpenPopup(id: Text, flags: Int32)
    | BeginPopup(id: Text, flags: Int32)
    | EndPopup
    | BeginTable(id: Text, count: Int32, flags: Int32, width: Float, tall: Float, inner: Float)
    | EndTable
    | TableNextRow(flags: Int32, tall: Float)
    | TableSetColumnIndex(n: Int32)
    | SetNextItemWidth(width: Float)

  // ---- recording

  function StepOf(w: Widget): Byte {
    match w
    case FillWidth => 0x00
    case SameLine => 0x01
    case BeginDisabled => 0x02
    case EndDisabled => 0x03
    case Separator => 0x98
    case Combo(_, _, _, _) => 0x80
    case Button(_, _, _) => 0x81
    case Columns(_, _, _) => 0x82
    case NextColumn => 0x83
    case RadioButton(_, _) => 0x84
    case BeginGroup => 0x85
    case EndGroup => 0x86
    case LeftLabel(_) => 0x87
    case SliderInt(_, _, _, _, _, _) => 0x88
    case SliderFloatWithSteps(_, _, _, _, _, _) => 0x89
    case InputInt(_, _, _, _, _) => 0x8A
    case InputFloat(_, _, _, _, _, _) => 0x99
    case InputDouble(_, _, _, _, _, _) => 0x9A
    case Checkbox(_, _) => 0x8B
    case SliderFloat(_, _, _, _, _, _) => 0x8C
    case InputText(_, _, _, _) => 0x8D
    case PlainText(_) => 0x8E
    case TextColored(_, _, _, _, _) => 0x8F
    case OpenPopup(_, _) => 0x90
    case BeginPopup(_, _) => 0x91
    case EndPopup => END_POPUP
    case BeginTable(_, _, _, _, _, _) => 0x93
    case EndTable => END_TABLE
    case TableNextRow(_, _) => 0x95
    case TableSetColumnIndex(_) => 0x96
    case SetNextItemWidth(_) => 0x97
  }

  function Args(w: Widget): seq<Elem> {
    match w
    case Combo(l, n, items, h) => [Str(l), Int(n), Str(items), Int(h)]
    case Button(l, x, y) => [Str(l), Elem.Float(x), Elem.Float(y)]
    case Columns(n, id, b) => [Int(n), Str(id), Bool(b)]
    case RadioButton(l, b) => [Str(l), Bool(b)]
    case LeftLabel(t) => [Str(t)]
    case SliderInt(l, n, least, most, format, flags) => [Str(l), Int(n), Int(least), Int(most), Int(format), Int(flags)]
    case SliderFloatWithSteps(l, x, low, high, step, format) =>
      [Str(l), Elem.Float(x), Elem.Float(low), Elem.Float(high), Elem.Float(step), Int(format)]
    case InputInt(l, n, step, fast, flags) => [Str(l), Int(n), Int(step), Int(fast), Int(flags)]
    case InputFloat(l, x, step, fast, format, flags) =>
      [Str(l), Elem.Float(x), Elem.Float(step), Elem.Float(fast), Str(format), Int(flags)]
    case InputDouble(l, x, step, fast, format, flags) =>
      [Str(l), Elem.Double(x), Elem.Double(step), Elem.Double(fast), Str(format), Int(flags)]
    case Checkbox(l, b) => [Str(l), Bool(b)]
    case SliderFloat(l, x, low, high, format, flags) =>
      [Str(l), Elem.Float(x), Elem.Float(low), Elem.Float(high), Int(format), Int(flags)]
    case InputText(l, t, size, flags) => [Str(l), Str(t), Int(size), Int(flags)]
    case PlainText(t) => [Str(t)]
    case TextColored(r, g, b, a, t) => [Elem.Float(r), Elem.Float(g), Elem.Float(b), Elem.Float(a), Str(t)]
    case OpenPopup(id, flags) => [Str(id), Int(flags)]
    case BeginPopup(id, flags) => [Str(id), Int(flags)]
    case BeginTable(id, n, flags, x, y, inner) =>
      [Str(id), Int(n), Int(flags), Elem.Float(x), Elem.Float(y), Elem.Float(inner)]
    case TableNextRow(flags, h) => [Int(flags), Elem.Float(h)]
    case TableSetColumnIndex(n) => [Int(n)]
    case SetNextItemWidth(x) => [Elem.Float(x)]
    case _ => []
  }

  // The widgets that hand on (and use up) a pending request for a synchronous update.
  predicate TakesSync(w: Widget) {
    w.Combo? || w.Button? || w.Columns? || w.RadioButton? || w.LeftLabel? || w.SliderInt? || w.SliderFloatWithSteps?
    || w.InputInt? || w.InputFloat? || w.InputDouble? || w.Checkbox? || w.SliderFloat? || w.InputText?
  }

  function Recorded(w: Widget, sync: bool): seq<Elem> {
    [Step(StepOf(w), sync && TakesSync(w))] + Args(w)
  }

  // ---- drawing

  // The widget call that draws a frame; the arguments are read by position and by kind.
  function Dispatched(step: Byte, a: seq<Elem>): Option<Widget>
    requires HasKinds(a, Kinds(step))
  {
    match step
    case 0x00 => Some(FillWidth)
    case 0x01 => Some(SameLine)
    case 0x02 => Some(BeginDisabled)
    case 0x03 => Some(EndDisabled)
    case 0x98 => Some(Separator)
    case 0x80 => Some(Combo(a[0].str, a[1].i, a[2].str, a[3].i))
    case 0x81 => Some(Button(a[0].str, a[1].f, a[2].f))
    case 0x82 => Some(Columns(a[0].i, a[1].str, a[2].b))
    case 0x83 => Some(NextColumn)
    case 0x84 => Some(RadioButton(a[0].str, a[1].b))
    case 0x85 => Some(BeginGroup)
    case 0x86 => Some(EndGroup)
    case 0x87 => Some(LeftLabel(a[0].str))
    case 0x88 => Some(SliderInt(a[0].str, a[1].i, a[2].i, a[3].i, a[4].i, a[5].i))
    case 0x89 => Some(SliderFloatWithSteps(a[0].str, a[1].f, a[2].f, a[3].f, a[4].f, a[5].i))
    case 0x8A => Some(InputInt(a[0].str, a[1].i, a[2].i, a[3].i, a[4].i))
    case 0x99 => Some(InputFloat(a[0].str, a[1].f, a[2].f, a[3].f, a[4].str, a[5].i))
    case 0x9A => Some(InputDouble(a[0].str, a[1].d, a[2].d, a[3].d, a[4].str, a[5].i))
    case 0x8B => Some(Checkbox(a[0].str, a[1].b))
    case 0x8C => Some(SliderFloat(a[0].str, a[1].f, a[2].f, a[3].f, a[4].i, a[5].i))
    case 0x8D => Some(InputText(a[0].str, a[1].str, a[2].i, a[3].i))
    case 0x8E => Some(PlainText(a[0].str))
    case 0x8F => Some(TextColored(a[0].f, a[1].f, a[2].f, a[3].f, a[4].str))
    case 0x90 => Some(OpenPopup(a[0].str, a[1].i))
    case 0x91 => Some(BeginPopup(a[0].str, a[1].i))
    case 0x92 => Some(EndPopup)
    case 0x93 => Some(BeginTable(a[0].str, a[1].i, a[2].i, a[3].f, a[4].f, a[5].f))
    case 0x94 => Some(EndTable)
    case 0x95 => Some(TableNextRow(a[0].i, a[1].f))
    case 0x96 => Some(TableSetColumnIndex(a[0].i))
    case 0x97 => Some(SetNextItemWidth(a[0].f))
    case _ => None
  }

  lemma InputArgsHaveKinds(w: Widget)
    requires TakesSync(w)
    ensures HasKinds(Args(w), Kinds(StepOf(w)))
  {
  }

  lemma OtherArgsHaveKinds(w: Widget)
    requires !TakesSync(w)
    ensures HasKinds(Args(w), Kinds(StepOf(w)))
  {
  }

  lemma DispatchedBack(w: Widget)
    requires HasKinds(Args(w), Kinds(StepOf(w)))
    ensures Dispatched(StepOf(w), Args(w)) == Some(w)
  {
  }

  // What a text field shows of its text: at most `size` - 1 bytes of a C string, the buffer being bounded.
  function UpToNul(s: Text): Text {
    if s == [] || s[0] == 0 then [] else [s[0]] + UpToNul(s[1..])
  }

  function FieldSize(size: Int32): nat { if size < 1 then 1 else if size > 4096 then 4096 else size }

  function Shown(w: Widget): Widget {
    match w
    case InputText(l, t, size, flags) =>
      var c := UpToNul(t);
      var room := FieldSize(size) - 1;
      InputText(l, if |c| <= room then c else c[..room], FieldSize(size), flags)
    case _ => w
  }

  // A text field shows the longest start of its text that has no zero byte and leaves room for one at its end; the
  // room is what was asked for, but at least one byte and at most what the buffer has. Nothing else is changed.
  lemma {:induction false} ShownExactly(w: Widget)
    ensures w.InputText? ==>
              var v := Shown(w);
              && v == w.(text := v.text, size := v.size)
              && v.text <= w.text && 0 !in v.text && |v.text| < v.size
              && (1 <= w.size <= 4096 ==> v.size == w.size) && (w.size < 1 ==> v.size == 1) && (w.size > 4096 ==> v.size == 4096)
              && (v.text == w.text || |v.text| == v.size - 1 || w.text[|v.text|] == 0)
    ensures !w.InputText? ==> Shown(w) == w
  {
    if w.InputText? { UpToNulExactly(w.text); }
  }

  lemma {:induction false} UpToNulExactly(s: Text)
    ensures UpToNul(s) <= s && 0 !in UpToNul(s) && (UpToNul(s) == s || s[|UpToNul(s)|] == 0)
  {
    if s != [] && s[0] != 0 { UpToNulExactly(s[1..]); }
  }

  // A request for a synchronous update is used up by what the user can press or edit, by columns and by labels.
  lemma TakesSyncExactly(w: Widget)
    ensures TakesSync(w) <==> Pressable(StepOf(w)) || Editable(StepOf(w)) || w.Columns? || w.LeftLabel?
  {
  }

  lemma {:induction false} NoNul(s: Text)
    requires 0 !in s
    ensures UpToNul(s) == s
  {
    if s != [] {
      assert s[0] in s && forall c <- s[1..] :: c in s;
      NoNul(s[1..]);
    }
  }

  // A field whose text fits it, and whose size fits the buffer, is shown as it is.
  lemma FittingFieldIsShown(w: Widget)
    requires w.InputText? && 0 !in w.text && |w.text| < w.size <= 4096
    ensures Shown(w) == w
  {
    NoNul(w.text);
  }

  // The step that ends what a closed popup or table leaves out.
  function EndStep(w: Widget): Byte { if w.BeginPopup? then END_POPUP else END_TABLE }

  predicate Opens(w: Widget) { w.BeginPopup? || w.BeginTable? }

  // ---- the tables as one value

  // Which arguments a step takes, and which call it stands for.
  datatype Grammar = Grammar(kinds: Byte -> seq<Kind>, call: (Byte, seq<Elem>) --> Option<Widget>)

  const TABLE := Grammar(Kinds, (step: Byte, a: seq<Elem>) requires HasKinds(a, Kinds(step)) => Dispatched(step, a))

  // Calls only read arguments that have their kinds, ends take none, and what is named has its name first.
  ghost predicate Good(g: Grammar) {
    && (forall step, a :: HasKinds(a, g.kinds(step)) ==> g.call.requires(step, a))
    && g.kinds(END_POPUP) == [] && g.kinds(END_TABLE) == []
    && (forall step :: Pressable(step) || Editable(step) ==> |g.kinds(step)| >= 2 && g.kinds(step)[0] == IsStr)
  }

  // Every widget is recorded as a well-formed frame that is drawn as that widget.
  ghost predicate Agrees(g: Grammar) {
    && Good(g)
    && forall w :: HasKinds(Args(w), g.kinds(StepOf(w))) && g.call(StepOf(w), Args(w)) == Some(w)
  }

  predicate Editable(step: Byte) { step in {0x80, 0x88, 0x89, 0x8A, 0x8B, 0x8C, 0x8D, 0x99, 0x9A} }

  predicate Pressable(step: Byte) { step == 0x81 || step == 0x84 }

  lemma TableIsGood()
    ensures Good(TABLE)
  {
  }

  lemma TableAgrees()
    ensures Agrees(TABLE)
  {
    TableIsGood();
    forall w ensures HasKinds(Args(w), TABLE.kinds(StepOf(w))) && TABLE.call(StepOf(w), Args(w)) == Some(w) {
      if TakesSync(w) { InputArgsHaveKinds(w); } else { OtherArgsHaveKinds(w); }
      DispatchedBack(w);
    }
  }
}

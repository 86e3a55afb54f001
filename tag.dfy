/**
 * The tag component: a closed six-way variant decides the wrapper element,
 * the class list, the content inside the tag, the content after it and the
 * props handed to the radio or checkbox it wraps.
 */
module Tag {
  import opened Wrappers

  datatype Variant = Text | Checkbox | Radio | Status | Count | Icon

  datatype Density = Small | Normal | Large

  datatype StatusKind = Danger | Success | Warning | Info

  /** The tag's props; `caption` is the source's `label`, `className` the caller's extra class. */
  datatype TagProps = TagProps(
    variant: Variant,
    caption: Option<string>,
    icon: Option<string>,
    density: Option<Density>,
    status: Option<StatusKind>,
    defaultChecked: Option<bool>,
    checked: Option<bool>,
    name: Option<string>,
    value: Option<string>,
    className: Option<string>)

  /** A string is truthy in JavaScript when it is defined and not empty. */
  predicate Truthy(s: Option<string>) {
    s.Some? && s.value != ""
  }

  /** A boolean is truthy when it is defined and true. */
  predicate IsTrue(b: Option<bool>) {
    b == Some(true)
  }

  /** The wrapper element: a `div` for the selectable and text variants, a `span` otherwise. */
  function ElementName(v: Variant): (tagName: string)
    ensures tagName == "div" <==> v == Text || v == Checkbox || v == Radio
    ensures tagName == "span" <==> v == Status || v == Count || v == Icon
  {
    match v
    case Text | Checkbox | Radio => "div"
    case _ => "span"
  }

  function DensityClass(d: Density): string {
    match d
    case Small => "small"
    case Normal => "normal"
    case Large => "large"
  }

  function StatusClass(s: StatusKind): string {
    match s
    case Danger => "danger"
    case Success => "success"
    case Warning => "warning"
    case Info => "info"
  }

  /** The density in effect: `normal` unless one is given. */
  function EffectiveDensity(p: TagProps): Density {
    p.density.GetOr(Normal)
  }

  /** The arguments of the `classNames` call, in order; `None` is a `false` or `undefined` argument. */
  function ClassArguments(p: TagProps): seq<Option<string>> {
    [ Some("br-tag"),
      if p.variant == Radio || p.variant == Checkbox then Some("interaction-select") else None,
      if p.variant == Text then Some("text") else None,
      if p.variant == Status then Some("status") else None,
      if p.variant == Count then Some("count") else None,
      if p.status.Some? then Some(StatusClass(p.status.value)) else None,
      Some(DensityClass(EffectiveDensity(p))),
      p.className ]
  }

  /** What `classNames` keeps of its arguments: the truthy ones, in order. */
  function KeepTruthy(args: seq<Option<string>>): (classes: seq<string>)
    ensures |classes| <= |args|
    ensures |args| > 0 && Truthy(args[0]) ==> |classes| > 0 && classes[0] == args[0].value
  {
    if args == [] then []
    else if Truthy(args[0]) then [args[0].value] + KeepTruthy(args[1..])
    else KeepTruthy(args[1..])
  }

  /** A string is kept exactly when it is a non-empty argument. */
  lemma {:induction false} KeepTruthyMembers(args: seq<Option<string>>, c: string)
    ensures c in KeepTruthy(args) <==> c != "" && Some(c) in args
  {
    if args != [] {
      assert Some(c) in args <==> Some(c) == args[0] || Some(c) in args[1..];
      KeepTruthyMembers(args[1..], c);
    }
  }

  lemma KeepTruthySingle(x: Option<string>)
    ensures KeepTruthy([x]) == if Truthy(x) then [x.value] else []
  {
  }

  /** Filtering a concatenation filters each part. */
  lemma {:induction false} KeepTruthyAppend(xs: seq<Option<string>>, ys: seq<Option<string>>)
    ensures KeepTruthy(xs + ys) == KeepTruthy(xs) + KeepTruthy(ys)
  {
    if xs == [] {
      assert xs + ys == ys;
    } else {
      assert (xs + ys)[0] == xs[0];
      assert (xs + ys)[1..] == xs[1..] + ys;
      KeepTruthyAppend(xs[1..], ys);
    }
  }

  /** The tag's class list. */
  function ClassList(p: TagProps): seq<string> {
    KeepTruthy(ClassArguments(p))
  }

  /** `br-tag` heads the class list of every variant. */
  lemma BrTagFirst(p: TagProps)
    ensures |ClassList(p)| > 0 && ClassList(p)[0] == "br-tag"
  {
  }

  /** A class is in the list exactly when it is one of the non-empty arguments. */
  lemma InClassList(p: TagProps, c: string)
    ensures c in ClassList(p) <==> c != "" && Some(c) in ClassArguments(p)
  {
    KeepTruthyMembers(ClassArguments(p), c);
  }

  /** `interaction-select` marks the selectable variants (unless the caller passes that very class). */
  lemma InteractionSelectClass(p: TagProps)
    ensures "interaction-select" in ClassList(p) <==>
      p.variant == Radio || p.variant == Checkbox || p.className == Some("interaction-select")
  {
    InClassList(p, "interaction-select");
  }

  /** `text` marks the text variant (unless the caller passes that very class). */
  lemma TextClass(p: TagProps)
    ensures "text" in ClassList(p) <==> p.variant == Text || p.className == Some("text")
  {
    InClassList(p, "text");
  }

  /** `status` marks the status variant (unless the caller passes that very class). */
  lemma StatusVariantClass(p: TagProps)
    ensures "status" in ClassList(p) <==> p.variant == Status || p.className == Some("status")
  {
    InClassList(p, "status");
  }

  /** `count` marks the count variant (unless the caller passes that very class). */
  lemma CountClass(p: TagProps)
    ensures "count" in ClassList(p) <==> p.variant == Count || p.className == Some("count")
  {
    InClassList(p, "count");
  }

  /**
   * The icon variant adds no class of its own: its classes are `br-tag`, the
   * status if given, the density and the caller's class if truthy.
   */
  lemma IconClassList(p: TagProps)
    requires p.variant == Icon
    ensures ClassList(p) ==
      ["br-tag"]
      + (if p.status.Some? then [StatusClass(p.status.value)] else [])
      + [DensityClass(EffectiveDensity(p))]
      + (if Truthy(p.className) then [p.className.value] else [])
  {
    var a: seq<Option<string>> := [Some("br-tag")];
    var b: seq<Option<string>> := [None, None, None, None];
    var c := [if p.status.Some? then Some(StatusClass(p.status.value)) else None];
    var d := [Some(DensityClass(EffectiveDensity(p)))];
    var e := [p.className];
    assert ClassArguments(p) == a + b + c + d + e;
    KeepTruthyAppend(a + b + c + d, e);
    KeepTruthyAppend(a + b + c, d);
    KeepTruthyAppend(a + b, c);
    KeepTruthyAppend(a, b);
    assert KeepTruthy(a) == ["br-tag"];
    assert KeepTruthy(b) == [];
    KeepTruthySingle(c[0]);
    KeepTruthySingle(d[0]);
    KeepTruthySingle(e[0]);
    assert p.status.Some? ==> StatusClass(p.status.value) != "";
    assert DensityClass(EffectiveDensity(p)) != "";
  }

  /** The density in effect is always a class; another density only when the caller passes it. */
  lemma DensityClasses(p: TagProps, d: Density)
    ensures DensityClass(EffectiveDensity(p)) in ClassList(p)
    ensures DensityClass(d) in ClassList(p) <==> d == EffectiveDensity(p) || p.className == Some(DensityClass(d))
  {
    InClassList(p, DensityClass(EffectiveDensity(p)));
    InClassList(p, DensityClass(d));
  }

  /** A status class appears only when that status is given (or the caller passes that class). */
  lemma StatusClasses(p: TagProps, s: StatusKind)
    ensures StatusClass(s) in ClassList(p) <==> p.status == Some(s) || p.className == Some(StatusClass(s))
  {
    InClassList(p, StatusClass(s));
  }

  /** The props a radio or checkbox receives; `None` is a prop not passed at all. */
  datatype Forwarded = Forwarded(
    name: string,
    value: Option<string>,
    caption: Option<string>,
    defaultChecked: Option<bool>,
    checked: Option<bool>)

  /**
   * `name || ''` and the conditional spreads: a prop is forwarded, unchanged,
   * exactly when it is truthy, so `false` and `""` never are.
   */
  function ForwardedProps(p: TagProps): (f: Forwarded)
    ensures f.name == if Truthy(p.name) then p.name.value else ""
    ensures f.value.Some? <==> Truthy(p.value)
    ensures f.value.Some? ==> f.value == p.value
    ensures f.caption.Some? <==> Truthy(p.caption)
    ensures f.caption.Some? ==> f.caption == p.caption
    ensures f.defaultChecked.Some? <==> IsTrue(p.defaultChecked)
    ensures f.checked.Some? <==> IsTrue(p.checked)
    ensures f.value != Some("") && f.caption != Some("")
    ensures f.defaultChecked != Some(false) && f.checked != Some(false)
  {
    Forwarded(
      if Truthy(p.name) then p.name.value else "",
      if Truthy(p.value) then p.value else None,
      if Truthy(p.caption) then p.caption else None,
      if IsTrue(p.defaultChecked) then Some(true) else None,
      if IsTrue(p.checked) then Some(true) else None)
  }

  /** A piece of rendered content. */
  datatype Part =
    | IconAndCaption(icon: Option<string>, caption: Option<string>)
    | CaptionSpan(text: string)
    | RadioInput(props: Forwarded)
    | CheckboxInput(props: Forwarded)

  /** What the tag renders: its element, its classes, the parts inside it and the parts after it. */
  datatype Rendering = Rendering(element: string, classes: seq<string>, inside: seq<Part>, after: seq<Part>)

  /** The tag's render function (the caller's children, which follow the parts inside, are left out). */
  function Render(p: TagProps): (r: Rendering)
    ensures r.element == ElementName(p.variant) && r.classes == ClassList(p)
    ensures p.variant == Text <==> r.inside == [IconAndCaption(p.icon, p.caption)]
    ensures p.variant == Radio <==> r.inside == [RadioInput(ForwardedProps(p))]
    ensures p.variant == Checkbox <==> r.inside == [CheckboxInput(ForwardedProps(p))]
    ensures p.variant == Count && Truthy(p.caption) <==> r.inside == [CaptionSpan(p.caption.GetOr(""))]
    ensures p.variant == Status || p.variant == Icon || (p.variant == Count && !Truthy(p.caption)) <==> r.inside == []
    ensures p.variant == Status && Truthy(p.caption) <==> r.after == [CaptionSpan(p.caption.GetOr(""))]
    ensures !(p.variant == Status && Truthy(p.caption)) <==> r.after == []
  {
    var inside :=
      match p.variant
      case Text => [IconAndCaption(p.icon, p.caption)]
      case Count => if Truthy(p.caption) then [CaptionSpan(p.caption.value)] else []
      case Radio => [RadioInput(ForwardedProps(p))]
      case Checkbox => [CheckboxInput(ForwardedProps(p))]
      case _ => [];
    var after := if p.variant == Status && Truthy(p.caption) then [CaptionSpan(p.caption.value)] else [];
    Rendering(ElementName(p.variant), ClassList(p), inside, after)
  }

  /** A checked radio renders a radio input that is checked, and no `defaultChecked` unless one was given. */
  lemma CheckedRadio(p: TagProps)
    requires p.variant == Radio && p.checked == Some(true) && p.defaultChecked.None?
    ensures Render(p).inside == [RadioInput(Forwarded(
      if Truthy(p.name) then p.name.value else "",
      if Truthy(p.value) then p.value else None,
      if Truthy(p.caption) then p.caption else None,
      None, Some(true)))]
  {
  }
}

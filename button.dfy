/**
 * src/components/Button/Button.tsx: how the shared button turns its props
 * into the `disabled` flag, the class string and the content it renders.
 * Props left unset take the component's defaults.
 */
module Button {
  import opened Common

  datatype Variant = Primary | Secondary | Danger | Ghost
  datatype Size = Small | Medium | Large

  /** The button's children: a plain string, or any other React node. */
  datatype Child = Text(text: string) | Node

  const BaseStyles: string :=
    "inline-flex items-center justify-center font-medium rounded-lg border transition-all duration-200 focus:outline-none focus:ring-2 focus:ring-offset-2 focus:ring-blue-500 cursor-pointer disabled:cursor-not-allowed"
  const FullWidth: string := "w-full"
  const LoadingSuffix: string := "..."

  const PrimaryClasses: string :=
    "bg-blue-600 hover:bg-blue-700 text-white border-transparent shadow-sm hover:shadow-md disabled:bg-blue-400"
  const SecondaryClasses: string :=
    "bg-white hover:bg-gray-50 text-gray-700 border-gray-300 shadow-sm hover:shadow-md disabled:bg-gray-100"
  const DangerClasses: string :=
    "bg-red-600 hover:bg-red-700 text-white border-transparent shadow-sm hover:shadow-md disabled:bg-red-400"
  const GhostClasses: string :=
    "bg-transparent hover:bg-gray-100 text-gray-700 border-transparent disabled:bg-gray-50"

  /** `variantStyles[variant]` */
  function VariantClasses(variant: Variant): (classes: string)
    ensures classes != ""
  {
    match variant
    case Primary => PrimaryClasses
    case Secondary => SecondaryClasses
    case Danger => DangerClasses
    case Ghost => GhostClasses
  }

  /** `sizeStyles[size]` */
  function SizeClasses(size: Size): (classes: string)
    ensures classes != ""
  {
    match size
    case Small => "px-2 py-1.5 text-xs"
    case Medium => "px-4 py-2 text-sm"
    case Large => "px-6 py-3 text-base"
  }

  /** The props a caller may pass; None is a prop left unset. */
  datatype ButtonProps = ButtonProps(
    variant: Option<Variant>,
    size: Option<Size>,
    loading: Option<bool>,
    disabled: Option<bool>,
    fullWidth: Option<bool>,
    className: Option<string>,
    children: Child)

  /** The props after the destructuring defaults have been applied. */
  datatype Settings = Settings(
    variant: Variant, size: Size, loading: bool, disabled: bool, fullWidth: bool, className: string, children: Child)

  function WithDefaults(props: ButtonProps): (s: Settings)
    ensures props.variant.None? ==> s.variant == Primary
    ensures props.size.None? ==> s.size == Medium
    ensures props.loading.None? ==> !s.loading
    ensures props.disabled.None? ==> !s.disabled
    ensures props.fullWidth.None? ==> !s.fullWidth
    ensures props.className.None? ==> s.className == ""
    ensures props.variant.Some? ==> s.variant == props.variant.value
    ensures props.size.Some? ==> s.size == props.size.value
    ensures props.loading.Some? ==> s.loading == props.loading.value
    ensures props.disabled.Some? ==> s.disabled == props.disabled.value
    ensures props.fullWidth.Some? ==> s.fullWidth == props.fullWidth.value
    ensures props.className.Some? ==> s.className == props.className.value
    ensures s.children == props.children
  {
    Settings(
      props.variant.GetOr(Primary),
      props.size.GetOr(Medium),
      props.loading.GetOr(false),
      props.disabled.GetOr(false),
      props.fullWidth.GetOr(false),
      props.className.GetOr(""),
      props.children)
  }

  function WidthClasses(fullWidth: bool): (classes: string)
    ensures classes == FullWidth <==> fullWidth
    ensures !fullWidth ==> classes == ""
  {
    if fullWidth then FullWidth else ""
  }

  /** `[base, variant, size, width, className].filter(Boolean).join(" ")` */
  function ClassName(s: Settings): string {
    Join(NonEmpty([BaseStyles, VariantClasses(s.variant), SizeClasses(s.size), WidthClasses(s.fullWidth), s.className]), " ")
  }

  /** An optional part as the list `filter(Boolean)` keeps of it. */
  function Present(x: string): seq<string> {
    if x != "" then [x] else []
  }

  /** An optional part as it appears in the joined string. */
  function Spaced(x: string): string {
    if x != "" then " " + x else ""
  }

  lemma {:induction false} NonEmptyOne(x: string)
    ensures NonEmpty([x]) == Present(x)
  {
    assert [x][1..] == [];
  }

  lemma {:induction false} JoinPresent(parts: seq<string>, x: string)
    requires |parts| > 0
    ensures Join(parts + Present(x), " ") == Join(parts, " ") + Spaced(x)
  {
    if x != "" {
      JoinSnoc(parts, " ", x);
    } else {
      assert parts + Present(x) == parts;
    }
  }

  /**
   * Joining the non-empty parts of three present parts and two optional ones:
   * each optional part adds one space and itself when present, nothing otherwise.
   */
  lemma {:induction false} JoinPresentParts(a: string, b: string, c: string, w: string, k: string)
    requires a != "" && b != "" && c != ""
    ensures Join(NonEmpty([a, b, c, w, k]), " ") == a + " " + b + " " + c + Spaced(w) + Spaced(k)
  {
    assert [a, b, c, w, k] == ([a, b, c] + [w]) + [k];
    NonEmptyAppend([a, b, c] + [w], [k]);
    NonEmptyAppend([a, b, c], [w]);
    NonEmptyKeepsAll([a, b, c]);
    NonEmptyOne(w);
    NonEmptyOne(k);
    assert NonEmpty([a, b, c, w, k]) == ([a, b, c] + Present(w)) + Present(k);
    assert Join([a, b, c], " ") == a + " " + b + " " + c by {
      assert [a, b, c][1..] == [b, c];
      assert [b, c][1..] == [c];
      assert Join([c], " ") == c;
      assert Join([b, c], " ") == b + " " + c;
    }
    JoinPresent([a, b, c], w);
    JoinPresent([a, b, c] + Present(w), k);
  }

  /**
   * The class string spelled out: the three fixed parts, then "w-full" and
   * the caller's classes each only when present, always one space apart.
   */
  lemma ClassNameClosedForm(s: Settings)
    ensures ClassName(s) ==
      BaseStyles + " " + VariantClasses(s.variant) + " " + SizeClasses(s.size) +
      (if s.fullWidth then " " + FullWidth else "") + Spaced(s.className)
  {
    assert BaseStyles != "";
    JoinPresentParts(BaseStyles, VariantClasses(s.variant), SizeClasses(s.size), WidthClasses(s.fullWidth), s.className);
  }

  /** What the button renders. */
  datatype Rendered = Rendered(disabled: bool, className: string, spinner: bool, content: Child)

  /** While loading, a string label gets "..." appended; any other child is shown as is. */
  function Content(loading: bool, children: Child): (c: Child)
    ensures !loading ==> c == children
    ensures loading && children.Text? ==> c == Text(children.text + LoadingSuffix)
    ensures loading && children.Node? ==> c == Node
  {
    if loading && children.Text? then Text(children.text + LoadingSuffix) else children
  }

  function Render(props: ButtonProps): (r: Rendered)
    ensures r.disabled <==> WithDefaults(props).disabled || WithDefaults(props).loading
    ensures r.spinner <==> WithDefaults(props).loading
    ensures r.className == ClassName(WithDefaults(props))
    ensures r.content == Content(WithDefaults(props).loading, props.children)
  {
    var s := WithDefaults(props);
    Rendered(s.disabled || s.loading, ClassName(s), s.loading, Content(s.loading, s.children))
  }

  /** A button given only its children is enabled, primary, medium, not full width, and shows them unchanged. */
  lemma DefaultButton(children: Child)
    ensures var r := Render(ButtonProps(None, None, None, None, None, None, children));
      !r.disabled && !r.spinner && r.content == children &&
      r.className == BaseStyles + " " + VariantClasses(Primary) + " " + SizeClasses(Medium)
  {
    ClassNameClosedForm(WithDefaults(ButtonProps(None, None, None, None, None, None, children)));
  }

  /** A loading button is disabled whatever its `disabled` prop says. */
  lemma LoadingDisables(props: ButtonProps)
    requires props.loading == Some(true)
    ensures Render(props).disabled && Render(props).spinner
  {
  }
}

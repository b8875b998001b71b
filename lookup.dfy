/** The completion popup's item type as the completion builder sees it. The
    host's lookup-element classes are reduced to the data they carry; how the
    host renders or inserts them is not part of this model. */
module Lookup {

  datatype Option<+T> = None | Some(value: T)

  /** An icon handle. Completion only passes it through. */
  datatype Icon = Icon(token: nat)

  /** A named program element of the parsed script: its name and an identity
      that tells two elements with the same name apart. */
  datatype NamedElement = NamedElement(name: string, identity: nat)

  /** The object a lookup element stands for. */
  datatype LookupObject = TextObject(text: string) | PsiObject(element: NamedElement)

  /** One item of the popup.
      - `Builder` is an item made by the lookup-element builder: the object it
        stands for, its primary lookup string, whether matching is
        case-sensitive, at most one additional lookup string and an icon.
      - `PathElement` is a path item: the path and the flag passed with it,
        true when the path names a file rather than a directory.
      - `Prioritized` wraps another item, unchanged, with a grouping number. */
  datatype LookupElement =
    | Builder(obj: LookupObject, lookupString: string, caseSensitive: bool,
              extraLookup: Option<string>, icon: Option<Icon>)
    | PathElement(path: string, isFile: bool)
    | Prioritized(delegate: LookupElement, grouping: int)

  /** The groups path items are put in. */
  datatype CompletionGrouping = RelativeFilePath | AbsoluteFilePath

  /** The grouping number of a group. Only the two numbers being different
      matters to the completion code. */
  function Ordinal(g: CompletionGrouping): nat
  {
    match g
    case RelativeFilePath => 0
    case AbsoluteFilePath => 1
  }

  /** Every string a builder item can be matched by. */
  function AllLookupStrings(e: LookupElement): set<string>
    requires e.Builder?
  {
    {e.lookupString} + (if e.extraLookup.Some? then {e.extraLookup.value} else {})
  }

  /** The item inside a grouping wrapper; any other item is its own delegate. */
  function Unwrapped(e: LookupElement): LookupElement
  {
    if e.Prioritized? then e.delegate else e
  }
}

/**
 Content blocks: what an agent sends, what the thread keeps, and how a block absorbs more
 content. A block that holds Markdown is generic in how the Markdown is held: by name in the
 timeline, where the streaming buffer may also point at it, and by value in a tool call.
 */
module Content {
  import opened Prelude
  import opened Utf8

  /** An embedded resource: its rendered link, whether it is text, and what it decodes or renders to. */
  datatype Resource = Resource(link: Text, isText: bool, image: Option<nat>, markdown: Text)

  /** `link` is the uri as the mention parser renders it; `decoded` is the picture, if decoding works. */
  datatype AcpContent =
    | TextContent(text: Text)
    | LinkContent(uri: Text, link: Text)
    | ImageContent(decoded: Option<nat>)
    | ResourceContent(resource: Resource)
    | OtherContent

  datatype ContentBlock<+M> =
    | Empty
    | Markdown(markdown: M)
    | EmbeddedResource(resource: Resource, rendered: Option<M>)
    | ResourceLink(uri: Text, link: Text)
    | Image(image: nat)

  /** ASCII characters as bytes. */
  function Ascii(s: string): (t: Text)
    requires forall i :: 0 <= i < |s| ==> s[i] < '\U{0080}'
    ensures |t| == |s| && forall i :: 0 <= i < |s| ==> t[i] == s[i] as int as Byte
  {
    seq(|s|, i requires 0 <= i < |s| => s[i] as int as Byte)
  }

  const NEWLINE: Text := [0x0A]
  const IMAGE_MARKDOWN: Text := [0x60, 0x49, 0x6D, 0x61, 0x67, 0x65, 0x60]

  function StringContents(c: AcpContent): Text {
    match c
    case TextContent(text) => text
    case LinkContent(_, link) => link
    case ImageContent(_) => IMAGE_MARKDOWN
    case ResourceContent(r) => if r.isText then r.link else []
    case OtherContent => []
  }

  /** What absorbing content does to a block. */
  datatype Effect = BecomeLink(uri: Text, link: Text) | BecomeImage(image: nat) | NewMarkdown(text: Text) | Extend(text: Text)

  function AppendEffect<M>(b: ContentBlock<M>, c: AcpContent): Effect {
    match b
    case Empty =>
      (match c
       case LinkContent(uri, link) => BecomeLink(uri, link)
       case ImageContent(Some(image)) => BecomeImage(image)
       case _ => NewMarkdown(StringContents(c)))
    case Markdown(_) => Extend(StringContents(c))
    case ResourceLink(_, link) => NewMarkdown(link + NEWLINE + StringContents(c))
    case EmbeddedResource(r, _) => NewMarkdown(r.link + NEWLINE + StringContents(c))
    case Image(_) => NewMarkdown(IMAGE_MARKDOWN + NEWLINE + StringContents(c))
  }

  /** A fresh block never extends anything. */
  function NewEffect(c: AcpContent): (e: Effect)
    ensures !e.Extend?
  {
    AppendEffect<Text>(Empty, c)
  }

  predicate ValidContent(c: AcpContent) {
    match c
    case TextContent(text) => Valid(text)
    case LinkContent(uri, link) => Valid(uri) && Valid(link)
    case ResourceContent(r) => Valid(r.link) && Valid(r.markdown)
    case _ => true
  }

  predicate ValidBlock<M>(b: ContentBlock<M>) {
    match b
    case EmbeddedResource(r, _) => Valid(r.link) && Valid(r.markdown)
    case ResourceLink(uri, link) => Valid(uri) && Valid(link)
    case _ => true
  }

  lemma ImageMarkdownIsValid()
    ensures Valid(IMAGE_MARKDOWN) && Valid(NEWLINE)
  {
  }

  /** Whatever a block absorbs, the text it adds is well formed. */
  lemma {:induction false} EffectIsValid<M>(b: ContentBlock<M>, c: AcpContent)
    requires ValidBlock(b) && ValidContent(c)
    ensures var e := AppendEffect(b, c);
            && (e.NewMarkdown? || e.Extend? ==> Valid(e.text))
            && (e.BecomeLink? ==> Valid(e.uri) && Valid(e.link))
  {
    ImageMarkdownIsValid();
    var t := StringContents(c);
    assert Valid(t);
    if b.ResourceLink? {
      ValidConcat(b.link, NEWLINE);
      ValidConcat(b.link + NEWLINE, t);
    } else if b.EmbeddedResource? {
      ValidConcat(b.resource.link, NEWLINE);
      ValidConcat(b.resource.link + NEWLINE, t);
    } else if b.Image? {
      ValidConcat(IMAGE_MARKDOWN, NEWLINE);
      ValidConcat(IMAGE_MARKDOWN + NEWLINE, t);
    }
  }
}

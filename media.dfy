/**
 * Message media and the choice of platform call that relays it:
 * `is_animated_sticker_or_video` (tg_group_cloner.py:207-211) and the
 * three-way dispatch of `forward_message_as` (lines 236-268 for replies,
 * 276-305 otherwise).
 */
module Media {
  import opened Wrappers

  type MessageId = int

  /** A document attachment: its MIME type and its attribute list (kept opaque). */
  datatype Document = Document(mimeType: string, attributes: seq<string>)

  /**
   * `message.media`: absent, a document container (whose `document` may be
   * missing), or any other kind of media (photo, web page, poll, ...).
   */
  datatype Media = NoMedia | DocumentMedia(document: Option<Document>) | OtherMedia

  const StickerMime: string := "application/x-tgsticker"
  const WebmMime: string := "video/webm"

  /** `is_animated_sticker_or_video`: a present document whose MIME type starts with either signature. */
  predicate IsAnimatedStickerOrVideo(media: Media)
  {
    match media
    case DocumentMedia(Some(d)) => StickerMime <= d.mimeType || WebmMime <= d.mimeType
    case _ => false
  }

  /** One platform send, as `forward_message_as` issues it through a worker. */
  datatype SendRequest =
    | SendStreamingFile(attributes: seq<string>, replyTo: Option<MessageId>)
    | SendCaptionedFile(caption: string, replyTo: Option<MessageId>)
    | SendText(text: string, replyTo: Option<MessageId>)

  /**
   * The dispatch order: an animated sticker or webm video is re-sent as a
   * streaming file with the original attributes; any other media as a file
   * captioned with `text`; no media as the plain `text`.
   */
  function Dispatch(media: Media, text: string, replyTo: Option<MessageId>): (r: SendRequest)
    ensures r.replyTo == replyTo
    ensures r.SendStreamingFile? <==> IsAnimatedStickerOrVideo(media)
    ensures r.SendCaptionedFile? <==> media != NoMedia && !IsAnimatedStickerOrVideo(media)
    ensures r.SendText? <==> media == NoMedia
    ensures r.SendStreamingFile? ==> media.DocumentMedia? && media.document.Some? && r.attributes == media.document.value.attributes
    ensures r.SendCaptionedFile? ==> r.caption == text
    ensures r.SendText? ==> r.text == text
  {
    if IsAnimatedStickerOrVideo(media) then SendStreamingFile(media.document.value.attributes, replyTo)
    else if media != NoMedia then SendCaptionedFile(text, replyTo)
    else SendText(text, replyTo)
  }

  /** The text of an animated sticker or webm video is not relayed: the request does not depend on it. */
  lemma StreamingIgnoresText(media: Media, t1: string, t2: string, replyTo: Option<MessageId>)
    requires IsAnimatedStickerOrVideo(media)
    ensures Dispatch(media, t1, replyTo) == Dispatch(media, t2, replyTo)
  {
  }

  /** The classifier looks only at a MIME prefix: extending a matching MIME type still matches. */
  lemma ClassifierPrefixClosed(mime: string, suffix: string, attributes: seq<string>)
    requires IsAnimatedStickerOrVideo(DocumentMedia(Some(Document(mime, attributes))))
    ensures IsAnimatedStickerOrVideo(DocumentMedia(Some(Document(mime + suffix, attributes))))
  {
    var m := mime + suffix;
    assert mime == m[..|mime|];
  }

  /** Static stickers, mp4 videos, empty documents and non-document media are not streamed. */
  lemma ClassifierExamples(attributes: seq<string>)
    ensures IsAnimatedStickerOrVideo(DocumentMedia(Some(Document("application/x-tgsticker", attributes))))
    ensures IsAnimatedStickerOrVideo(DocumentMedia(Some(Document("video/webm", attributes))))
    ensures !IsAnimatedStickerOrVideo(DocumentMedia(Some(Document("image/webp", attributes))))
    ensures !IsAnimatedStickerOrVideo(DocumentMedia(Some(Document("video/mp4", attributes))))
    ensures !IsAnimatedStickerOrVideo(DocumentMedia(None))
    ensures !IsAnimatedStickerOrVideo(OtherMedia) && !IsAnimatedStickerOrVideo(NoMedia)
  {
    assert "image/webp"[0] != WebmMime[0];
    assert "video/mp4"[6] != WebmMime[6];
  }
}

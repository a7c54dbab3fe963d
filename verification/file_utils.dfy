/** The string step of `fileToBase64` (utils/fileUtils.ts): the data URL the
    browser's file reader produces is cut at its commas and the piece after
    the first comma is kept as the base64 payload. The read itself is an
    input here. */
module FileUtils {
  import opened Results
  import opened Text

  /** The reason `fileToBase64` rejects with when the reader output has no comma. */
  const InvalidFormatMessage: string := "Invalid file format for Base64 conversion"

  /** `result.includes(',') ? result.split(',')[1] : reject(...)`. */
  function PayloadOf(dataUrl: string): (r: Result<string, string>)
    ensures r.Err? <==> ',' !in dataUrl
    ensures r.Err? ==> r.error == InvalidFormatMessage
    ensures r.Ok? ==> ',' !in r.value
  {
    if ',' in dataUrl then
      SplitWithSeparator(dataUrl, ',');
      Ok(Split(dataUrl, ',')[1])
    else
      Err(InvalidFormatMessage)
  }

  /** The payload is the text strictly between the first comma and the next
      one, or the end of the string when there is no second comma. */
  lemma PayloadBetweenFirstCommas(dataUrl: string, first: nat)
    requires first < |dataUrl| && dataUrl[first] == ','
    requires ',' !in dataUrl[..first]
    ensures PayloadOf(dataUrl).Ok?
    ensures var payload := PayloadOf(dataUrl).value;
      var stop := first + 1 + |payload|;
      && stop <= |dataUrl|
      && dataUrl[first + 1..stop] == payload
      && (stop == |dataUrl| || dataUrl[stop] == ',')
  {
    var head := dataUrl[..first];
    var tail := dataUrl[first + 1..];
    assert dataUrl == head + [','] + tail;
    SplitAfterHead(head, ',', tail);
    SplitFirstPiece(tail, ',');
  }

  /** A data URL `prefix,payload` with no other comma yields exactly the payload:
      the `data:<mime>;base64` prefix is dropped. */
  lemma PayloadOfDataUrl(prefix: string, payload: string)
    requires ',' !in prefix && ',' !in payload
    ensures PayloadOf(prefix + [','] + payload) == Ok(payload)
  {
    SplitAfterHead(prefix, ',', payload);
    SplitWithoutSeparator(payload, ',');
  }

  /** `fileToBase64` once the reader has finished: a failed read rejects with
      the reader's error event, a data URL without a comma with the fixed
      message, and anything else resolves to the payload. */
  function FileToBase64(read: Option<string>): (r: Result<string, Rejection>)
    ensures read.None? ==> r == Err(OtherReason)
    ensures read.Some? && ',' !in read.value ==> r == Err(StringReason(InvalidFormatMessage))
    ensures read.Some? && ',' in read.value ==> r.Ok?
    ensures r.Ok? ==> read.Some? && ',' !in r.value && PayloadOf(read.value) == Ok(r.value)
  {
    match read
    case None => Err(OtherReason)
    case Some(dataUrl) =>
      match PayloadOf(dataUrl)
      case Ok(payload) => Ok(payload)
      case Err(reason) => Err(StringReason(reason))
  }
}

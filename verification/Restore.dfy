/** The payload side of `restore_entry` in `src/clipboard/state.rs`: which bytes are published
    under which MIME types, and which bytes a request gets. */
module Restores {
  import opened Config
  import opened Seqs
  import opened Mimes
  import opened Contents

  /** The payload that fills in missing aliases; `order` is the map's iteration order. */
  function Fallback(contents: Blobs, order: seq<Mime>): Bytes
    requires IsIteration(order, contents)
  {
    IterationKeys(order, contents);
    if PLAIN_UTF8 in contents then contents[PLAIN_UTF8]
    else if PLAIN in contents then contents[PLAIN]
    else if order != [] then contents[order[0]]
    else []
  }

  /** Adds every alias that is missing. */
  function TopUp(contents: Blobs, fallback: Bytes): Blobs {
    map m | m in contents.Keys + (set a | a in TEXT_ALIASES) :: if m in contents then contents[m] else fallback
  }

  method TopUpAliases(contents: Blobs, fallback: Bytes) returns (r: Blobs)
    ensures r == TopUp(contents, fallback)
  {
    r := contents;
    for i := 0 to |TEXT_ALIASES|
      invariant forall m :: m in r <==> m in contents || m in TEXT_ALIASES[..i]
      invariant forall m :: m in r ==> r[m] == if m in contents then contents[m] else fallback
    {
      assert TEXT_ALIASES[..i + 1] == TEXT_ALIASES[..i] + [TEXT_ALIASES[i]];
      if TEXT_ALIASES[i] !in r {
        r := r[TEXT_ALIASES[i] := fallback];
      }
    }
    assert TEXT_ALIASES[..|TEXT_ALIASES|] == TEXT_ALIASES;
  }

  /** What is published for an entry; `order` is the iteration order of its representations. */
  function Published(c: Content, order: seq<Mime>): Blobs
    requires IsIteration(order, Representations(c))
  {
    var contents := Representations(c);
    if HasText(c) then TopUp(contents, Fallback(contents, order)) else contents
  }

  /** `SourceData::content_for`; `order` is the iteration order of the published map. */
  function ContentFor(contents: Blobs, mime: Mime, order: seq<Mime>): Option<Bytes>
    requires IsIteration(order, contents)
  {
    IterationKeys(order, contents);
    if mime in contents then Some(contents[mime])
    else if IsTextMime(mime) && order != [] then Some(contents[order[0]])
    else None
  }

  /** Publishing never loses or changes a stored representation: a request for a stored type gets
      exactly its stored bytes. */
  lemma PublishedServesStored(c: Content, order: seq<Mime>, m: Mime, serving: seq<Mime>)
    requires IsIteration(order, Representations(c)) && IsIteration(serving, Published(c, order))
    requires m in Representations(c)
    ensures ContentFor(Published(c, order), m, serving) == Some(Representations(c)[m])
  {
  }
}

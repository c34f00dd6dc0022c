/**
 Led files reserve one page where two checks assume two, so the first page a led
 file hands out is one it cannot use for everything.
 */
module PageOne {
  import opened Options
  import opened PageFile
  import opened Bytes
  import opened Nodes
  import opened Codecs
  import opened Pagers

  /**
   A fresh led file hands out page 1 first. A leaf whose chain starts there is
   encoded, and the page that holds it cannot be decoded. What happens to page 1
   once it is freed is Pagers.PageOneIsRefused.
   */
  method ChainAtPageOne() returns (first: Option<PageId>, encoded: bool, decoded: bool)
    ensures first == Some(1) && encoded && !decoded
  {
    hide Pager.Valid;
    hide LeafIn;
    var led := new Pager.CreateLed(Disk(map[], map[]), 0);
    first := led.Allocate();
    assert first == Some(1);
    var leaf := [Chained([7], first.value, 5000)];
    LoneChainFits(leaf);
    var page := new byte[ROOM](_ => 0);
    encoded := EncodeLeaf(page, leaf);
    assert leaf[0] in leaf && !HeadsPastMeta(leaf);
    var entries;
    decoded, entries := DecodeLeaf(page[..], leaf);
  }

  lemma LoneChainFits(leaf: seq<Stored>)
    requires leaf == [Chained([7], 1, 5000)]
    ensures LeafBytes(leaf) <= CAPACITY && forall e | e in leaf :: Writable(e)
  {
    assert leaf[..|leaf| - 1] == [] && Total([]) == 0;
  }
}

/** The intrusive doubly linked lists of partition.c (TAILQ): the links live inside the
    elements, one for the bucket chain and one for the LRU list. */
module Tailq {
  import opened Lru

  class Elem {
    const key: nat
    const size: nat
    var chain: Link?
    var lru: Link?

    constructor (key: nat, size: nat, ghost chainTag: int, ghost lruTag: int)
      ensures this.key == key && this.size == size
      ensures chain != null && fresh(chain) && chain.elem == this && chain.tag == chainTag
      ensures lru != null && fresh(lru) && lru.elem == this && lru.tag == lruTag && lru != chain
    {
      this.key, this.size := key, size;
      new;
      chain := new Link(this, chainTag);
      lru := new Link(this, lruTag);
    }
  }

  /** A TAILQ_ENTRY.  `tag` says which list it was made for. */
  class Link {
    const elem: Elem
    ghost const tag: int
    var next: Link?
    var prev: Link?

    constructor (elem: Elem, ghost tag: int)
      ensures this.elem == elem && this.tag == tag
    {
      this.elem, this.tag := elem, tag;
      next, prev := null, null;
    }
  }

  /** A queue whose links nobody has moved is still a queue. */
  twostate lemma Still(q: Queue)
    requires old(q.Valid())
    requires q.first == old(q.first) && q.last == old(q.last) && q.links == old(q.links)
    requires forall l :: l in q.links ==> l.next == old(l.next) && l.prev == old(l.prev)
    ensures q.Valid()
  {
    forall i | 0 <= i < |q.links| ensures q.LinkOk(i) {
      assert old(q.LinkOk(i));
    }
  }

  class Queue {
    ghost const tag: int
    var first: Link?
    var last: Link?
    ghost var links: seq<Link>

    ghost predicate LinkOk(i: int)
      requires 0 <= i < |links|
      reads this, links
    {
      && links[i].next == (if i + 1 < |links| then links[i + 1] else null)
      && links[i].prev == (if i > 0 then links[i - 1] else null)
    }

    ghost predicate Valid()
      reads this, links
    {
      && first == (if links == [] then null else links[0])
      && last == (if links == [] then null else links[|links| - 1])
      && (forall l :: l in links ==> l.tag == tag)
      && (forall i :: 0 <= i < |links| ==> LinkOk(i))
      && (forall i, j :: 0 <= i < j < |links| ==> links[i] != links[j])
    }

    constructor (ghost tag: int)
      ensures Valid() && links == [] && this.tag == tag
    {
      this.tag := tag;
      first, last, links := null, null, [];
    }

    method InsertHead(l: Link)
      requires Valid() && l !in links && l.tag == tag
      modifies this, l`next, l`prev, links`next, links`prev
      ensures Valid() && links == [l] + old(links)
    {
      l.next, l.prev := first, null;
      if first == null { last := l; } else { first.prev := l; }
      first := l;
      links := [l] + links;
      forall j | 0 <= j < |links| ensures LinkOk(j) {
        assert j > 0 ==> old(LinkOk(j - 1));
      }
    }

    method InsertTail(l: Link)
      requires Valid() && l !in links && l.tag == tag
      modifies this, l`next, l`prev, links`next, links`prev
      ensures Valid() && links == old(links) + [l]
    {
      l.next, l.prev := null, last;
      if last == null { first := l; } else { last.next := l; }
      last := l;
      links := links + [l];
      forall j | 0 <= j < |links| ensures LinkOk(j) {
        assert j < |old(links)| ==> old(LinkOk(j));
      }
    }

    method Remove(l: Link, ghost i: nat)
      requires Valid() && i < |links| && links[i] == l
      modifies this, links`next, links`prev
      ensures Valid() && links == Without(old(links), i)
    {
      assert LinkOk(i);
      if l.next == null { last := l.prev; } else { l.next.prev := l.prev; }
      if l.prev == null { first := l.next; } else { l.prev.next := l.next; }
      links := Without(links, i);
      forall j | 0 <= j < |links| ensures LinkOk(j) {
        assert old(LinkOk(if j < i then j else j + 1));
      }
    }

    method MoveToHead(l: Link, ghost i: nat)
      requires Valid() && i < |links| && links[i] == l
      modifies this, links`next, links`prev
      ensures Valid() && links == [l] + Without(old(links), i)
    {
      Remove(l, i);
      InsertHead(l);
    }
  }
}

/**
 * The picker widget in the browser: a list of item blocks, an add box, and
 * a modal that searches contents and writes the chosen one back into the
 * block being edited.
 */
module ItemWidget {
  import opened Wrappers
  import opened WidgetSettings

  /** What a block shows and submits: the hidden input's value, the link's
      href and text, and the label's text (`title`). */
  datatype Content = Content(value: string, url: string, urlText: string, title: string)

  /** A block of the list. `node` is the identity of its DOM element, so
      that a reference to it survives changes to the list. */
  datatype Block = Block(node: nat, content: Content)

  /** The row checked in the modal: its radio value, its url and its
      title text. */
  datatype Selection = Selection(value: string, url: string, text: string)

  /** The response region of the modal. */
  datatype Region = Cleared | Text(text: string) | Markup(html: string)

  /** How an AJAX request ended: a JSON reply, or a transport failure. */
  datatype Outcome = Completed(success: bool, data: string) | TransportFailure

  /** The data posted by a search request. */
  datatype Post = Post(search: string, contentType: string, action: JsValue)

  /** Whether the add box is shown for `count` blocks. */
  predicate AddBoxShown(count: nat, multiple: bool) {
    count == 0 || multiple
  }

  /** The blocks in order, without the one whose element is `node`. */
  function Without(blocks: seq<Block>, node: nat): (r: seq<Block>)
    ensures |r| <= |blocks|
    ensures forall b :: b in r <==> b in blocks && b.node != node
  {
    if blocks == [] then []
    else if blocks[0].node == node then Without(blocks[1..], node)
    else [blocks[0]] + Without(blocks[1..], node)
  }

  predicate DistinctNodes(blocks: seq<Block>) {
    forall i, j :: 0 <= i < j < |blocks| ==> blocks[i].node != blocks[j].node
  }

  /** Removing a block of a list with distinct nodes cuts exactly that
      block out and keeps the others in their order. */
  lemma {:induction false} WithoutCutsOne(blocks: seq<Block>, k: nat)
    requires DistinctNodes(blocks) && k < |blocks|
    ensures Without(blocks, blocks[k].node) == blocks[..k] + blocks[k + 1..]
    decreases k
  {
    var n := blocks[k].node;
    if k == 0 {
      DistinctTail(blocks);
      WithoutAbsent(blocks[1..], n);
      assert blocks[..0] + blocks[1..] == blocks[1..];
    } else {
      assert blocks[0].node != n;
      var rest := blocks[1..];
      DistinctTail(blocks);
      assert rest[k - 1] == blocks[k];
      WithoutCutsOne(rest, k - 1);
      assert Without(blocks, n) == [blocks[0]] + Without(rest, n);
      ConsCut(blocks, k);
    }
  }

  /** Cutting index `k` out of a list is keeping its head and cutting
      index `k - 1` out of its tail. */
  lemma ConsCut<T>(s: seq<T>, k: nat)
    requires 0 < k < |s|
    ensures [s[0]] + (s[1..][..k - 1] + s[1..][k..]) == s[..k] + s[k + 1..]
  {
    assert s[1..][..k - 1] == s[1..k];
    assert s[1..][k..] == s[k + 1..];
    assert [s[0]] + s[1..k] == s[..k];
  }

  /** Removing an element that is not in the list changes nothing. */
  lemma {:induction false} WithoutAbsent(blocks: seq<Block>, node: nat)
    requires forall i :: 0 <= i < |blocks| ==> blocks[i].node != node
    ensures Without(blocks, node) == blocks
    decreases |blocks|
  {
    if blocks != [] {
      WithoutAbsent(blocks[1..], node);
      assert [blocks[0]] + blocks[1..] == blocks;
    }
  }

  /** The blocks with the content of the element `node` replaced. */
  function Rewrite(blocks: seq<Block>, node: nat, c: Content): (r: seq<Block>)
    ensures |r| == |blocks|
    ensures forall i :: 0 <= i < |r| ==> r[i].node == blocks[i].node
    ensures forall i :: 0 <= i < |r| ==>
      r[i].content == if blocks[i].node == node then c else blocks[i].content
  {
    seq(|blocks|, i requires 0 <= i < |blocks| =>
      if blocks[i].node == node then Block(node, c) else blocks[i])
  }

  /** What the submit handler writes into the current block: the value into
      the hidden input, the url into the link's href and text, the title
      into the label. */
  function WriteBack(s: Selection): Content {
    Content(s.value, s.url, s.url, s.text)
  }

  /** One widget (the `Wordpress` prototype) with its modal. */
  class Wordpress {
    /** The blocks under the list element, in document order. */
    var blocks: seq<Block>
    /** The next element identity a new block gets. */
    var nextNode: nat
    /** `$current`: the block being edited, if any. */
    var current: Option<nat>
    /** Whether the add button's box is shown. */
    var addBoxVisible: bool
    /** The modal's `initialized` class. */
    var initialized: bool
    /** How many times the modal's handlers were bound. */
    var handlerSets: nat
    var modalVisible: bool
    var overlayVisible: bool
    /** The spinner's `is-active` class. */
    var spinnerActive: bool
    var response: Region
    /** The modal's search input. */
    var searchInput: string
    /** The requests sent, oldest first. */
    var requests: seq<Post>

    /** `options.multiple`, as a flag. */
    const multiple: bool
    /** `options.modal`, the name of the modal and of the AJAX action. */
    const modalName: JsValue
    /** The label of a block freshly made from the template. */
    const placeholder: string
    /** The error text of the media box strings. */
    const errorText: string

    ghost predicate Valid()
      reads this
    {
      DistinctNodes(blocks)
      && (forall i :: 0 <= i < |blocks| ==> blocks[i].node < nextNode)
      && (initialized ==> current.Some?)
      && handlerSets == (if initialized then 1 else 0)
    }

    /** `new Wordpress($el, settings)` over the blocks already rendered: it
        binds the block handlers and sets the add box. */
    constructor(settings: Settings, initial: seq<Content>, placeholder: string, errorText: string)
      ensures Valid()
      ensures |blocks| == |initial| && forall i :: 0 <= i < |initial| ==> blocks[i].content == initial[i]
      ensures multiple == Truthy(Get(settings, "multiple")) && modalName == Get(settings, "modal")
      ensures this.placeholder == placeholder && this.errorText == errorText
      ensures current.None? && !initialized && !modalVisible && !overlayVisible && !spinnerActive
      ensures response == Cleared && searchInput == "" && requests == []
      ensures addBoxVisible == AddBoxShown(|blocks|, multiple)
    {
      blocks := seq(|initial|, i requires 0 <= i < |initial| => Block(i, initial[i]));
      nextNode := |initial|;
      current := None;
      initialized := false;
      handlerSets := 0;
      modalVisible := false;
      overlayVisible := false;
      spinnerActive := false;
      response := Cleared;
      searchInput := "";
      requests := [];
      multiple := Truthy(Get(settings, "multiple"));
      modalName := Get(settings, "modal");
      this.placeholder := placeholder;
      this.errorText := errorText;
      new;
      UpdateButtons();
    }

    /** `update_buttons`: hides the add box once a single-item field has
        its item, shows it while the list is empty or items are multiple. */
    method UpdateButtons()
      modifies this`addBoxVisible
      ensures addBoxVisible == AddBoxShown(|blocks|, multiple)
    {
      var count := |blocks|;
      if 1 <= count && !multiple {
        addBoxVisible := false;
      }
      if count == 0 || multiple {
        addBoxVisible := true;
      }
    }

    /** `add_block`: appends one block made from the template with an empty
        id, then updates the buttons. */
    method AddBlock()
      requires Valid()
      modifies this`blocks, this`nextNode, this`addBoxVisible
      ensures Valid()
      ensures blocks == old(blocks) + [Block(old(nextNode), Content("", "", "", placeholder))]
      ensures addBoxVisible == AddBoxShown(|blocks|, multiple)
    {
      blocks := blocks + [Block(nextNode, Content("", "", "", placeholder))];
      nextNode := nextNode + 1;
      UpdateButtons();
    }

    /** `remove_block` once its animation has run: removes the enclosing
        block and updates the buttons. Removing an element already gone
        leaves the list as it is. */
    method RemoveBlock(node: nat)
      requires Valid()
      modifies this`blocks, this`addBoxVisible
      ensures Valid()
      ensures blocks == Without(old(blocks), node)
      ensures forall k :: 0 <= k < |old(blocks)| && old(blocks)[k].node == node ==>
        blocks == old(blocks)[..k] + old(blocks)[k + 1..]
      ensures addBoxVisible == AddBoxShown(|blocks|, multiple)
    {
      ghost var before := blocks;
      blocks := Without(blocks, node);
      forall k | 0 <= k < |before| && before[k].node == node
        ensures blocks == before[..k] + before[k + 1..]
      {
        WithoutCutsOne(before, k);
      }
      assert DistinctNodes(blocks) by {
        WithoutKeepsDistinct(before, node);
      }
      UpdateButtons();
    }

    /** `edit_block`: the enclosing block becomes current; the modal is
        initialised on first use, then opened. */
    method EditBlock(node: nat)
      requires Valid()
      modifies this`current, this`initialized, this`handlerSets, this`modalVisible,
               this`overlayVisible, this`spinnerActive, this`requests
      ensures Valid()
      ensures current == Some(node)
      ensures initialized && handlerSets == 1
      ensures modalVisible && overlayVisible && spinnerActive
      ensures requests == old(requests) + [Post(searchInput, "post", modalName)]
    {
      current := Some(node);
      if !initialized {
        ModalInit();
      }
      ModalOpen();
    }

    /** `_modal_init`: binds the modal's handlers and marks it initialised. */
    method ModalInit()
      requires !initialized && handlerSets == 0
      modifies this`initialized, this`handlerSets
      ensures initialized && handlerSets == 1
    {
      handlerSets := handlerSets + 1;
      initialized := true;
    }

    /** `_modal_open`: shows the overlay and the modal, then searches. */
    method ModalOpen()
      modifies this`modalVisible, this`overlayVisible, this`spinnerActive, this`requests
      ensures modalVisible && overlayVisible && spinnerActive
      ensures requests == old(requests) + [Post(searchInput, "post", modalName)]
    {
      overlayVisible := true;
      modalVisible := true;
      SendRequest();
    }

    /** `_modal_close`: empties the response and hides the modal and the
        overlay; the search input keeps what was typed. */
    method ModalClose()
      modifies this`response, this`modalVisible, this`overlayVisible
      ensures response == Cleared && !modalVisible && !overlayVisible
    {
      response := Cleared;
      modalVisible := false;
      overlayVisible := false;
    }

    /** `_modal_send_request`: posts the search for posts and starts the
        spinner. */
    method SendRequest()
      modifies this`spinnerActive, this`requests
      ensures spinnerActive
      ensures requests == old(requests) + [Post(searchInput, "post", modalName)]
    {
      var post := Post(searchInput, "post", modalName);
      spinnerActive := true;
      requests := requests + [post];
    }

    /** The end of a request: the spinner stops whatever the outcome; a
        transport failure shows the error text; a reply shows its data,
        over the error text when it reports a failure. */
    method Complete(outcome: Outcome)
      modifies this`spinnerActive, this`response
      ensures !spinnerActive
      ensures response == match outcome
        case TransportFailure => Text(errorText)
        case Completed(_, data) => Markup(data)
    {
      spinnerActive := false;
      match outcome {
        case TransportFailure =>
          response := Text(errorText);
        case Completed(success, data) =>
          if !success {
            response := Text(errorText);
          }
          response := Markup(data);
      }
    }

    /** Typing into the search input. */
    method TypeSearch(s: string)
      modifies this`searchInput
      ensures searchInput == s
    {
      searchInput := s;
    }

    /** A key released in the search input: Escape closes the modal. */
    method KeyUp(which: int)
      modifies this`response, this`modalVisible, this`overlayVisible
      ensures initialized && which == 27 ==> response == Cleared && !modalVisible && !overlayVisible
      ensures !(initialized && which == 27) ==>
        response == old(response) && modalVisible == old(modalVisible) && overlayVisible == old(overlayVisible)
    {
      if initialized && which == 27 {
        ModalClose();
      }
    }

    /** A key pressed in the search input: Enter searches. */
    method KeyPress(which: int)
      modifies this`spinnerActive, this`requests
      ensures initialized && which == 13 ==> spinnerActive && requests == old(requests) + [Post(searchInput, "post", modalName)]
      ensures !(initialized && which == 13) ==> spinnerActive == old(spinnerActive) && requests == old(requests)
    {
      if initialized && which == 13 {
        SendRequest();
      }
    }

    /** A click on the overlay or on the close button. */
    method CloseClick()
      modifies this`response, this`modalVisible, this`overlayVisible
      ensures initialized ==> response == Cleared && !modalVisible && !overlayVisible
      ensures !initialized ==>
        response == old(response) && modalVisible == old(modalVisible) && overlayVisible == old(overlayVisible)
    {
      if initialized {
        ModalClose();
      }
    }

    /** A click on the search button. */
    method SearchClick()
      modifies this`spinnerActive, this`requests
      ensures initialized ==> spinnerActive && requests == old(requests) + [Post(searchInput, "post", modalName)]
      ensures !initialized ==> spinnerActive == old(spinnerActive) && requests == old(requests)
    {
      if initialized {
        SendRequest();
      }
    }

    /** A click on the submit button. With a row checked, its value, url
        and title are written into the current block and the modal closes;
        with none checked, nothing changes. A current block no longer in the
        list receives the write out of sight. */
    method Submit(checked: Option<Selection>)
      requires Valid()
      modifies this`blocks, this`response, this`modalVisible, this`overlayVisible
      ensures Valid()
      ensures initialized && checked.Some? ==>
        blocks == Rewrite(old(blocks), current.value, WriteBack(checked.value))
        && response == Cleared && !modalVisible && !overlayVisible
      ensures !(initialized && checked.Some?) ==>
        blocks == old(blocks) && response == old(response)
        && modalVisible == old(modalVisible) && overlayVisible == old(overlayVisible)
    {
      if initialized && checked.Some? {
        blocks := Rewrite(blocks, current.value, WriteBack(checked.value));
        ModalClose();
      }
    }
  }

  /** The blocks after the first still have distinct nodes. */
  lemma DistinctTail(blocks: seq<Block>)
    requires DistinctNodes(blocks) && blocks != []
    ensures DistinctNodes(blocks[1..])
    ensures forall m :: 0 <= m < |blocks| - 1 ==> blocks[1..][m].node != blocks[0].node
  {
    var rest := blocks[1..];
    forall i, j | 0 <= i < j < |rest| ensures rest[i].node != rest[j].node {
      assert rest[i] == blocks[i + 1] && rest[j] == blocks[j + 1];
    }
  }

  /** Removing a block keeps the nodes of the others distinct. */
  lemma {:induction false} WithoutKeepsDistinct(blocks: seq<Block>, node: nat)
    requires DistinctNodes(blocks)
    ensures DistinctNodes(Without(blocks, node))
    decreases |blocks|
  {
    if blocks != [] {
      var rest := blocks[1..];
      DistinctTail(blocks);
      WithoutKeepsDistinct(rest, node);
      if blocks[0].node != node {
        var w := Without(rest, node);
        var r := [blocks[0]] + w;
        forall k | 0 <= k < |w| ensures w[k].node != blocks[0].node {
          assert w[k] in rest;
          var m :| 0 <= m < |rest| && rest[m] == w[k];
        }
        forall i, j | 0 <= i < j < |r| ensures r[i].node != r[j].node {
          assert r[j] == w[j - 1];
          if i > 0 {
            assert r[i] == w[i - 1];
          }
        }
      }
    }
  }
}

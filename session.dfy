/** The per-browser session of the channel page: how many rows of the filtered
    list are shown, and which channel the player shows. Each method is one
    rerun of the page script or one button click. */
module Session {
  import opened Playlist
  import opened Search

  datatype Option<T> = None | Some(value: T)

  /** Rows shown before "Show More" is ever clicked. */
  const InitialVisible: nat := 10
  /** Rows one "Show More" click adds. */
  const PageStep: nat := 10

  /** `filtered[:count]`: Python's slice, which stops at the end of the list. */
  function Page(view: seq<Channel>, count: nat): (page: seq<Channel>)
    ensures page <= view
    ensures |page| == if count < |view| then count else |view|
  {
    if count < |view| then view[..count] else view
  }

  /** A larger count shows the rows shown before, and more. */
  lemma {:induction false} PageExtends(view: seq<Channel>, count: nat, larger: nat)
    requires count <= larger
    ensures Page(view, count) <= Page(view, larger)
  {
    assert Page(view, count) == view[..|Page(view, count)|];
    assert Page(view, larger) == view[..|Page(view, larger)|];
  }

  class CatalogSession {
    /** The loaded channel list (the loader's cached result). */
    const catalog: seq<Channel>
    /** The text currently in the search box. */
    var query: string
    /** `st.session_state.visible_count`. */
    var visibleCount: nat
    /** `st.session_state.selected_channel`; `None` while the key is absent. */
    var selected: Option<Channel>

    /** The row limit is a positive multiple of the step, and a selection is a catalog channel. */
    ghost predicate Valid()
      reads this
    {
      InitialVisible <= visibleCount && visibleCount % PageStep == 0
      && (selected.Some? ==> selected.value in catalog)
    }

    /** `filtered_channels` for the current query. */
    function View(): (view: seq<Channel>)
      reads this
    {
      Filter(catalog, query)
    }

    /** `filtered_channels[:visible_count]` in the current state: the rows the next
        run of the script renders as buttons. */
    function Shown(): (page: seq<Channel>)
      reads this
    {
      Page(View(), visibleCount)
    }

    /** A fresh session: `visible_count` is initialised to 10, nothing is selected. */
    constructor (catalog: seq<Channel>)
      ensures Valid()
      ensures this.catalog == catalog && query == ""
      ensures visibleCount == InitialVisible && selected == None
    {
      this.catalog := catalog;
      query := "";
      visibleCount := InitialVisible;
      selected := None;
    }

    /** One run of the script with the search box holding `q`: the view is refiltered,
        and the first row becomes the selection only if nothing was ever selected. */
    method Rerun(q: string)
      requires Valid()
      modifies this
      ensures Valid()
      ensures query == q && visibleCount == old(visibleCount)
      ensures old(selected).Some? ==> selected == old(selected)
      ensures old(selected).None? ==> selected == if View() != [] then Some(View()[0]) else None
    {
      query := q;
      var filtered := Filter(catalog, q);
      if filtered != [] && selected.None? {
        FilterMembership(catalog, q, filtered[0]);
        selected := Some(filtered[0]);
      }
    }

    /** A click on the button of row `i`: that row becomes the selection. The click is
        read after the player was drawn, so the player shows the new selection from
        the next run of the script on. */
    method ChooseChannel(i: nat)
      requires Valid()
      requires i < |Shown()|
      modifies this`selected
      ensures Valid()
      ensures selected == Some(Shown()[i])
      ensures selected.value in View()
    {
      var chosen := Shown()[i];
      assert chosen == View()[i];
      FilterMembership(catalog, query, chosen);
      selected := Some(chosen);
    }

    /** A click on "Show More", which is offered only while rows remain hidden. The
        rows it adds are drawn by the next run of the script. */
    method ShowMore() returns (grown: bool)
      requires Valid()
      modifies this`visibleCount
      ensures Valid()
      ensures grown == (old(visibleCount) < |View()|)
      ensures visibleCount == if grown then old(visibleCount) + PageStep else old(visibleCount)
      ensures old(Shown()) <= Shown()
    {
      grown := visibleCount < |Filter(catalog, query)|;
      if grown {
        PageExtends(View(), visibleCount, visibleCount + PageStep);
        visibleCount := visibleCount + PageStep;
      }
    }
  }

  /** Twenty-five channels, no query, two "Show More" clicks: the session then holds a
      `visible_count` whose page is all 25 channels, and a further click changes nothing
      because `visible_count` is no longer below the filtered length. */
  method ShowMoreTwice(catalog: seq<Channel>) returns (shown: seq<Channel>, offeredAgain: bool)
    requires |catalog| == 25
    ensures shown == catalog
    ensures !offeredAgain
  {
    var session := new CatalogSession(catalog);
    session.Rerun("");
    FilterEmptyQuery(catalog);
    var first := session.ShowMore();
    var second := session.ShowMore();
    shown := session.Shown();
    offeredAgain := session.ShowMore();
  }
}

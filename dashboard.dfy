/**
 * The dashboard's state as its event handlers change it: the navigation
 * items and page sections with their "active" classes, the title, the map
 * and chart handles, the modals and the body's scroll lock, the activity
 * feed, the reports table and the civic-star appreciation form.
 */
module Dashboard {
  import opened Options
  import opened Text
  import opened Lookup
  import opened Navigation
  import opened Overlay
  import opened Feed
  import opened Reports
  import opened Appreciation

  /** The page as the browser loaded it, before the script starts. */
  datatype Markup = Markup(
    navMenu: bool,
    navIds: seq<string>, navActive: seq<bool>,
    pageIds: seq<string>, pageActive: seq<bool>,
    title: string,
    mapContainer: bool,
    responseCanvas: bool,
    timeLabels: seq<string>, timeActive: seq<bool>,
    rows: seq<Row>,
    feed: Option<seq<FeedItem>>,
    modals: map<string, bool>,
    options: seq<string>, optionActive: seq<bool>,
    rewards: seq<string>, rewardChecked: seq<bool>,
    certificatePreviewShown: bool,
    message: string,
    previewCaption: string,
    badge: Option<string>,
    totalStars: Option<string>)
  {
    /** Every flag list matches its element list, and the report modal exists (initModals dereferences it). */
    predicate WellFormed() {
      |navIds| == |navActive| && |pageIds| == |pageActive| && |timeLabels| == |timeActive|
      && |options| == |optionActive| && |rewards| == |rewardChecked| && ReportModal in modals
    }
  }

  /** Remove "active" from every element of a list (the forEach over a querySelectorAll). */
  method ClearAll(flags: seq<bool>) returns (cleared: seq<bool>)
    ensures |cleared| == |flags|
    ensures forall i :: 0 <= i < |cleared| ==> !cleared[i]
  {
    cleared := flags;
    var i := 0;
    while i < |cleared|
      invariant 0 <= i <= |cleared| == |flags|
      invariant forall j :: 0 <= j < i ==> !cleared[j]
    {
      cleared := cleared[i := false];
      i := i + 1;
    }
  }

  /**
   * Remove "active" from every element of a list, then add it to the first
   * element whose identifier is `target`, if there is one.
   */
  method ActivateFirst(ids: seq<string>, flags: seq<bool>, target: string) returns (activated: seq<bool>)
    requires |flags| == |ids|
    ensures activated == Selected(ids, target)
  {
    activated := ClearAll(flags);
    if target in ids {
      SelectAfterClear(activated, ids, target);
      activated := activated[IndexOf(ids, target) := true];
    }
  }

  /** The dashboard's state apart from the navigation menu, its items and their badge. */
  datatype PageState = PageState(
    currentPage: string, mapBuilt: bool, pendingMapInits: nat, responseData: Option<seq<real>>,
    pageIds: seq<string>, pageActive: seq<bool>, civicStarsPinned: bool, title: string,
    timeLabels: seq<string>, timeActive: seq<bool>, rows: seq<Row>, feed: Option<seq<FeedItem>>,
    modalActive: map<string, bool>, scrollLocked: bool,
    options: seq<string>, optionActive: seq<bool>, rewards: seq<string>, rewardChecked: seq<bool>,
    certificatePreviewShown: bool, message: string, previewCaption: string, totalStars: Option<string>)

  /**
   * The state the constructor leaves for the loaded markup: the default page,
   * the map built exactly when its container exists and no initMap pending,
   * the weekly chart series when the chart's canvas exists, no modal open and
   * scrolling free, and the rest of the markup as loaded.
   */
  function AsLoaded(m: Markup): PageState {
    PageState(DefaultPage, m.mapContainer, 0, if m.responseCanvas then Some(WeekSeries) else None,
      m.pageIds, m.pageActive, false, m.title, m.timeLabels, m.timeActive, m.rows, m.feed, m.modals, false,
      m.options, m.optionActive, m.rewards, m.rewardChecked, m.certificatePreviewShown, m.message,
      m.previewCaption, m.totalStars)
  }

  class Dashboard {
    /** The page switchPage last switched to. */
    var currentPage: string
    /** Whether the #issueMap container is in the page. */
    var mapContainerPresent: bool
    /** Whether a map has been constructed (this.map). */
    var mapBuilt: bool
    /** How many deferred initMap calls are waiting on their timers. */
    var pendingMapInits: nat
    /** The response-time chart's data, when that chart exists. */
    var responseData: Option<seq<real>>

    /** Whether the .nav-menu list is in the page. */
    var navMenuPresent: bool
    var navIds: seq<string>
    var navActive: seq<bool>
    var pageIds: seq<string>
    var pageActive: seq<bool>
    /** The inline display: block that showCivicStarsPage puts on the civic-stars section. */
    var civicStarsPinned: bool
    var title: string
    var timeLabels: seq<string>
    var timeActive: seq<bool>
    var rows: seq<Row>
    /** The activity feed's items, when the feed exists. */
    var feed: Option<seq<FeedItem>>
    var modalActive: map<string, bool>
    var scrollLocked: bool
    var options: seq<string>
    var optionActive: seq<bool>
    var rewards: seq<string>
    var rewardChecked: seq<bool>
    var certificatePreviewShown: bool
    var message: string
    var previewCaption: string
    /** The badge of the civic-stars navigation item, when it exists. */
    var badge: Option<string>
    /** The total on the first civic-star statistics card, when it exists. */
    var totalStars: Option<string>

    ghost predicate Valid()
      reads this
    {
      && |navIds| == |navActive| && |pageIds| == |pageActive| && |timeLabels| == |timeActive|
      && |options| == |optionActive| && |rewards| == |rewardChecked|
      && ReportModal in modalActive
      && mapBuilt == mapContainerPresent
    }

    /** Everything but the navigation menu, its items and their badge, as one value. */
    function Page(): PageState
      reads this`currentPage, this`mapBuilt, this`pendingMapInits, this`responseData
      reads this`pageIds, this`pageActive, this`civicStarsPinned, this`title
      reads this`timeLabels, this`timeActive, this`rows, this`feed, this`modalActive, this`scrollLocked
      reads this`options, this`optionActive, this`rewards, this`rewardChecked
      reads this`certificatePreviewShown, this`message, this`previewCaption, this`totalStars
    {
      PageState(currentPage, mapBuilt, pendingMapInits, responseData, pageIds, pageActive, civicStarsPinned, title,
        timeLabels, timeActive, rows, feed, modalActive, scrollLocked, options, optionActive, rewards, rewardChecked,
        certificatePreviewShown, message, previewCaption, totalStars)
    }

    /** The modals' flags and the scroll lock, as one value. */
    function ModalState(): Modals
      reads this
    {
      Modals(modalActive, scrollLocked)
    }

    /** The CivicAdminDashboard constructor, which builds the map at once when its container exists. */
    constructor (m: Markup)
      requires m.WellFormed()
      ensures Valid() && Page() == AsLoaded(m)
      ensures navMenuPresent == m.navMenu
      ensures navIds == m.navIds && navActive == m.navActive && badge == m.badge
    {
      currentPage := DefaultPage;
      mapContainerPresent := m.mapContainer;
      mapBuilt := m.mapContainer;
      pendingMapInits := 0;
      responseData := if m.responseCanvas then Some(WeekSeries) else None;
      navMenuPresent := m.navMenu;
      navIds, navActive := m.navIds, m.navActive;
      pageIds, pageActive := m.pageIds, m.pageActive;
      civicStarsPinned := false;
      title := m.title;
      timeLabels, timeActive := m.timeLabels, m.timeActive;
      rows := m.rows;
      feed := m.feed;
      modalActive, scrollLocked := m.modals, false;
      options, optionActive := m.options, m.optionActive;
      rewards, rewardChecked := m.rewards, m.rewardChecked;
      certificatePreviewShown := m.certificatePreviewShown;
      message := m.message;
      previewCaption := m.previewCaption;
      badge, totalStars := m.badge, m.totalStars;
    }

    // ---- Page switching --------------------------------------------------

    /**
     * switchPage: exactly one navigation item and one page section end up
     * active, both the target's; the title and currentPage follow. Switching
     * to the map while no map exists schedules another initMap.
     */
    method SwitchPage(pageId: string)
      requires Valid()
      requires pageId in Titles
      requires pageId in navIds && PageElementId(pageId) in pageIds
      modifies this`navActive, this`pageActive, this`title, this`currentPage, this`pendingMapInits
      ensures Valid()
      ensures navActive == Selected(navIds, pageId)
      ensures pageActive == Selected(pageIds, PageElementId(pageId))
      ensures title == Titles[pageId] && currentPage == pageId
      ensures pendingMapInits == old(pendingMapInits) + if pageId == MapPage && !mapBuilt then 1 else 0
    {
      Highlight(pageId, PageElementId(pageId));
      title := Titles[pageId];
      currentPage := pageId;
      ScheduleMapInit(pageId);
    }

    /** Make the navigation item `navId` and the section `sectionId` the only active ones. */
    method Highlight(navId: string, sectionId: string)
      requires Valid()
      modifies this`navActive, this`pageActive
      ensures Valid()
      ensures navActive == Selected(navIds, navId)
      ensures pageActive == Selected(pageIds, sectionId)
    {
      navActive := ActivateFirst(navIds, navActive, navId);
      pageActive := ActivateFirst(pageIds, pageActive, sectionId);
    }

    /** The page-specific step of switchPage: defer initMap when the map page is shown without a map. */
    method ScheduleMapInit(pageId: string)
      requires Valid()
      modifies this`pendingMapInits
      ensures Valid()
      ensures pendingMapInits == old(pendingMapInits) + if pageId == MapPage && !mapBuilt then 1 else 0
    {
      if pageId == MapPage && !mapBuilt {
        pendingMapInits := pendingMapInits + 1;
      }
    }

    /**
     * showCivicStarsPage: the civic-stars item and section become the only
     * active ones (no section is active when the page lacks it); currentPage
     * is left as it was.
     */
    method ShowCivicStarsPage()
      requires Valid()
      requires CivicStarsPage in navIds
      modifies this`navActive, this`pageActive, this`civicStarsPinned, this`title
      ensures Valid()
      ensures navActive == Selected(navIds, CivicStarsPage)
      ensures pageActive == Selected(pageIds, PageElementId(CivicStarsPage))
      ensures civicStarsPinned == (old(civicStarsPinned) || PageElementId(CivicStarsPage) in pageIds)
      ensures title == CivicStarsTitle
    {
      Highlight(CivicStarsPage, PageElementId(CivicStarsPage));
      if PageElementId(CivicStarsPage) in pageIds {
        civicStarsPinned := true;
      }
      title := CivicStarsTitle;
    }

    /**
     * addCivicStarsNavigation: when the page has a navigation menu but no
     * civic-stars item, insert one, inactive and with a badge of 47, before
     * the settings item or at the end; otherwise do nothing.
     */
    method AddCivicStarsNavigation()
      requires Valid()
      modifies this`navIds, this`navActive, this`badge
      ensures Valid()
      ensures navMenuPresent ==> CivicStarsPage in navIds
      ensures !navMenuPresent || CivicStarsPage in old(navIds) ==>
        navIds == old(navIds) && navActive == old(navActive) && badge == old(badge)
      ensures navMenuPresent && CivicStarsPage !in old(navIds) ==>
        var k := InsertionPoint(old(navIds));
        navIds == InsertAt(old(navIds), k, CivicStarsPage) && navActive == InsertAt(old(navActive), k, false)
        && badge == Some("47")
    {
      if navMenuPresent && CivicStarsPage !in navIds {
        var k := InsertionPoint(navIds);
        navIds := InsertAt(navIds, k, CivicStarsPage);
        navActive := InsertAt(navActive, k, false);
        badge := Some("47");
      }
    }

    /** initMap: constructs the map when its container is in the page, otherwise returns. */
    method InitMap()
      requires Valid()
      modifies this`mapBuilt
      ensures Valid()
      ensures mapBuilt == (old(mapBuilt) || mapContainerPresent)
    {
      if mapContainerPresent {
        mapBuilt := true;
      }
    }

    /**
     * The timer of a deferred initMap fires. Such a timer is only set while no
     * map exists, and the map is built at load time whenever its container
     * exists, so a deferred initMap never builds one.
     */
    method RunDeferredMapInit()
      requires Valid()
      requires pendingMapInits > 0
      modifies this`mapBuilt, this`pendingMapInits
      ensures Valid()
      ensures pendingMapInits == old(pendingMapInits) - 1
      ensures mapBuilt == old(mapBuilt)
    {
      pendingMapInits := pendingMapInits - 1;
      InitMap();
    }

    // ---- Modals ----------------------------------------------------------

    /** openModal. */
    method OpenModal(id: string)
      requires Valid() && id in modalActive
      modifies this`modalActive, this`scrollLocked
      ensures Valid()
      ensures ModalState() == Open(old(ModalState()), id)
    {
      modalActive := modalActive[id := true];
      scrollLocked := true;
    }

    /** closeModal. */
    method CloseModal(id: string)
      requires Valid() && id in modalActive
      modifies this`modalActive, this`scrollLocked
      ensures Valid()
      ensures ModalState() == Close(old(ModalState()), id)
    {
      modalActive := modalActive[id := false];
      scrollLocked := false;
    }

    /** closeCivicStarModal: closes the civic-star modal when the page has one. */
    method CloseCivicStarModal()
      requires Valid()
      modifies this`modalActive, this`scrollLocked
      ensures Valid()
      ensures CivicStarModal in old(modalActive) ==> ModalState() == Close(old(ModalState()), CivicStarModal)
      ensures CivicStarModal !in old(modalActive) ==> ModalState() == old(ModalState())
    {
      if CivicStarModal in modalActive {
        CloseModal(CivicStarModal);
      }
    }

    /** The close button of either modal. */
    method ClickCloseButton(id: string)
      requires Valid()
      requires id == ReportModal || (id == CivicStarModal && id in modalActive)
      modifies this`modalActive, this`scrollLocked
      ensures Valid()
      ensures ModalState() == Close(old(ModalState()), id)
    {
      if id == ReportModal {
        CloseModal(ReportModal);
      } else {
        CloseCivicStarModal();
      }
    }

    /** A click on either modal's element; only a click on the backdrop itself closes it. */
    method ClickModal(id: string, onBackdrop: bool)
      requires Valid()
      requires id == ReportModal || (id == CivicStarModal && id in modalActive)
      modifies this`modalActive, this`scrollLocked
      ensures Valid()
      ensures ModalState() == Click(old(ModalState()), id, onBackdrop)
    {
      if onBackdrop {
        ClickCloseButton(id);
      }
    }

    /** The Escape key, dispatched to both document listeners in registration order. */
    method PressEscape()
      requires Valid()
      modifies this`modalActive, this`scrollLocked
      ensures Valid()
      ensures ModalState() == Escape(old(ModalState()))
    {
      CloseModal(ReportModal);
      if CivicStarModal in modalActive && modalActive[CivicStarModal] {
        CloseCivicStarModal();
      }
    }

    // ---- Appreciation form -----------------------------------------------

    /**
     * resetCivicStarForm: only the first civic-star option is active, every
     * reward is unchecked, the certificate preview is hidden and the message
     * is the civic-star text. The preview button's caption is not refreshed.
     */
    method ResetCivicStarForm()
      requires Valid()
      modifies this`optionActive, this`rewardChecked, this`certificatePreviewShown, this`message
      ensures Valid()
      ensures optionActive == Selected(options, CivicStar)
      ensures forall i :: 0 <= i < |rewardChecked| ==> !rewardChecked[i]
      ensures !certificatePreviewShown
      ensures message == AppreciationMessage(CivicStar)
    {
      ClearChoices();
      ShowMessage(CivicStar);
    }

    /** The choice part of resetCivicStarForm: the civic-star option active, no reward checked, no certificate preview. */
    method ClearChoices()
      requires Valid()
      modifies this`optionActive, this`rewardChecked, this`certificatePreviewShown
      ensures Valid()
      ensures optionActive == Selected(options, CivicStar)
      ensures |rewardChecked| == |rewards| && forall i :: 0 <= i < |rewardChecked| ==> !rewardChecked[i]
      ensures !certificatePreviewShown
    {
      optionActive := ActivateFirst(options, optionActive, CivicStar);
      rewardChecked := ClearAll(rewardChecked);
      certificatePreviewShown := false;
    }

    /** The textarea takes the predefined message for an appreciation kind. */
    method ShowMessage(kind: string)
      requires Valid()
      modifies this`message
      ensures Valid()
      ensures message == AppreciationMessage(kind)
    {
      message := AppreciationMessage(kind);
    }

    /** openCivicStarModal: when the page has the modal, open it and reset the form. */
    method OpenCivicStarModal()
      requires Valid()
      modifies this`modalActive, this`scrollLocked
      modifies this`optionActive, this`rewardChecked, this`certificatePreviewShown, this`message
      ensures Valid()
      ensures CivicStarModal in old(modalActive) ==>
        && ModalState() == Open(old(ModalState()), CivicStarModal)
        && optionActive == Selected(options, CivicStar)
        && (forall i :: 0 <= i < |rewardChecked| ==> !rewardChecked[i])
        && !certificatePreviewShown
        && message == AppreciationMessage(CivicStar)
      ensures CivicStarModal !in old(modalActive) ==>
        && ModalState() == old(ModalState())
        && optionActive == old(optionActive) && rewardChecked == old(rewardChecked)
        && certificatePreviewShown == old(certificatePreviewShown) && message == old(message)
    {
      if CivicStarModal in modalActive {
        OpenModal(CivicStarModal);
        ResetCivicStarForm();
      }
    }

    /** A click on the appreciation option at position k: it becomes the only active one. */
    method ClickOption(k: nat)
      requires Valid() && k < |options|
      modifies this`optionActive, this`message
      ensures Valid()
      ensures optionActive == OnlyAt(|options|, k)
      ensures CountTrue(optionActive) == 1 && optionActive[k]
      ensures message == AppreciationMessage(options[k])
    {
      optionActive := ClearAll(optionActive);
      optionActive := optionActive[k := true];
      OnlyAtCount(|options|, k);
      ShowMessage(options[k]);
    }

    /** updatePreviewButton. */
    method UpdatePreviewButton()
      requires Valid()
      modifies this`previewCaption
      ensures Valid()
      ensures previewCaption == PreviewLabel(rewardChecked)
    {
      previewCaption := PreviewLabel(rewardChecked);
    }

    /**
     * The change event of the reward checkbox at position k, after the
     * browser toggled it: the certificate checkbox shows or hides the
     * certificate preview, and the preview button's caption is refreshed.
     */
    method ChangeReward(k: nat)
      requires Valid() && k < |rewards|
      modifies this`rewardChecked, this`certificatePreviewShown, this`previewCaption
      ensures Valid()
      ensures rewardChecked == old(rewardChecked)[k := !old(rewardChecked)[k]]
      ensures rewards[k] == Certificate ==> certificatePreviewShown == rewardChecked[k]
      ensures rewards[k] != Certificate ==> certificatePreviewShown == old(certificatePreviewShown)
      ensures previewCaption == PreviewLabel(rewardChecked)
    {
      rewardChecked := rewardChecked[k := !rewardChecked[k]];
      if rewards[k] == Certificate {
        certificatePreviewShown := rewardChecked[k];
      }
      UpdatePreviewButton();
    }

    /**
     * previewAppreciation, up to the dialog: reads the checked rewards, the
     * active option and the message, and decides what to show.
     */
    method PreviewAppreciation() returns (outcome: PreviewOutcome)
      requires Valid()
      ensures outcome == Preview(options, optionActive, message, rewards, rewardChecked)
      ensures outcome.CertificateWindow? <==> exists i :: 0 <= i < |rewards| && rewardChecked[i] && rewards[i] == Certificate
    {
      var selected := CheckedValues(rewards, rewardChecked);
      if Certificate in selected {
        outcome := CertificateWindow;
        return;
      }
      var kind := SelectedKind(options, optionActive);
      outcome := ConfirmDialog(PreviewText(kind, message, selected));
    }

    /** updateCivicStarStats: each counter that exists goes to NextCount of its text. */
    method UpdateCivicStarStats()
      requires Valid()
      modifies this`badge, this`totalStars
      ensures Valid()
      ensures badge == Counted(old(badge)) && totalStars == Counted(old(totalStars))
    {
      badge, totalStars := Counted(badge), Counted(totalStars);
    }

    /** The end of sendAppreciation, when its timer fires: close the modal and count the star. */
    method CompleteSend()
      requires Valid()
      modifies this`modalActive, this`scrollLocked, this`badge, this`totalStars
      ensures Valid()
      ensures CivicStarModal in old(modalActive) ==> ModalState() == Close(old(ModalState()), CivicStarModal)
      ensures CivicStarModal !in old(modalActive) ==> ModalState() == old(ModalState())
      ensures badge == Counted(old(badge)) && totalStars == Counted(old(totalStars))
    {
      CloseCivicStarModal();
      UpdateCivicStarStats();
    }

    // ---- Activity feed ---------------------------------------------------

    /** addRandomActivity, with the random pick as a parameter. */
    method AddRandomActivity(pick: nat)
      requires Valid() && pick < |Activities|
      modifies this`feed
      ensures Valid()
      ensures feed == if old(feed).Some? then Some(Prepend(old(feed).value, Render(Activities[pick]))) else None
    {
      if feed.Some? {
        feed := Some(Prepend(feed.value, Render(Activities[pick])));
      }
    }

    // ---- Reports search --------------------------------------------------

    /** filterReports: every row's visibility is set from its text and the query. */
    method FilterReports(query: string)
      requires Valid()
      modifies this`rows
      ensures Valid()
      ensures rows == Filtered(old(rows), query)
    {
      var target := Filtered(rows, query);
      var needle := Lower(query);
      var i := 0;
      while i < |rows|
        invariant 0 <= i <= |rows| == |old(rows)| == |target|
        invariant forall j :: 0 <= j < i ==> rows[j] == target[j]
        invariant forall j :: i <= j < |rows| ==> rows[j] == old(rows)[j]
      {
        var text := Lower(rows[i].text);
        rows := rows[i := Row(rows[i].text, Contains(text, needle))];
        i := i + 1;
      }
    }

    /** handleSearch: the query filters the reports table only while the reports page is current. */
    method HandleSearch(query: string)
      requires Valid()
      modifies this`rows
      ensures Valid()
      ensures rows == if currentPage == ReportsPage then Filtered(old(rows), query) else old(rows)
    {
      if currentPage == ReportsPage {
        FilterReports(query);
      }
    }

    // ---- Response-time chart ---------------------------------------------

    /** updateChartData: the response chart, when it exists, shows the period's series. */
    method UpdateChartData(period: string)
      requires Valid()
      modifies this`responseData
      ensures Valid()
      ensures responseData == if old(responseData).Some? then Some(ChartSeries(period)) else None
    {
      if responseData.Some? {
        responseData := Some(ChartSeries(period));
      }
    }

    /** A click on the time button at position k: it becomes the only active one and selects its period. */
    method ClickTimeButton(k: nat)
      requires Valid() && k < |timeLabels|
      modifies this`timeActive, this`responseData
      ensures Valid()
      ensures timeActive == OnlyAt(|timeLabels|, k) && CountTrue(timeActive) == 1
      ensures responseData == if old(responseData).Some? then Some(ChartSeries(timeLabels[k])) else None
    {
      timeActive := ClearAll(timeActive);
      timeActive := timeActive[k := true];
      OnlyAtCount(|timeLabels|, k);
      UpdateChartData(timeLabels[k]);
    }
  }

  /**
   * The page's load handlers: the dashboard is constructed, then the
   * civic-star system is initialised, which adds its navigation item. Apart
   * from that item and its badge the page is left as the constructor left it.
   * The model assumes that init() runs to its end, which the selector at
   * scripts/main.js:390 does not allow in a browser.
   */
  method OnContentLoaded(m: Markup) returns (d: Dashboard)
    requires m.WellFormed()
    ensures fresh(d) && d.Valid() && d.Page() == AsLoaded(m)
    ensures m.navMenu ==> CivicStarsPage in d.navIds
    ensures !m.navMenu || CivicStarsPage in m.navIds ==>
      d.navIds == m.navIds && d.navActive == m.navActive && d.badge == m.badge
    ensures m.navMenu && CivicStarsPage !in m.navIds ==>
      var k := InsertionPoint(m.navIds);
      d.navIds == InsertAt(m.navIds, k, CivicStarsPage) && d.navActive == InsertAt(m.navActive, k, false)
      && d.badge == Some("47")
  {
    d := new Dashboard(m);
    d.AddCivicStarsNavigation();
  }
}

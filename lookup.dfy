/**
 * The dashboard's fixed lookup tables. Each is an object literal indexed by a
 * key and followed by `|| fallback`; every value in them is a non-empty
 * string, so the fallback applies exactly to the keys the table lacks.
 */
module Lookup {

  // ---- Map markers -------------------------------------------------------

  const MarkerColors: map<string, string> := map[
    "pothole" := "#ef4444",
    "streetlight" := "#f59e0b",
    "trash" := "#22c55e",
    "graffiti" := "#3b82f6",
    "noise" := "#64748b"
  ]

  const DefaultMarkerColor := "#64748b"

  /** getMarkerColor: the marker fill for an issue category. */
  function MarkerColor(kind: string): (color: string)
    ensures color in MarkerColors.Values
    ensures kind in MarkerColors ==> color == MarkerColors[kind]
    ensures kind !in MarkerColors ==> color == MarkerColors["noise"]
  {
    if kind in MarkerColors then MarkerColors[kind]
    else assert MarkerColors["noise"] == DefaultMarkerColor; DefaultMarkerColor
  }

  /** The categories of the six sample issues plotted on the map. */
  const SampleIssueKinds: seq<string> :=
    ["pothole", "streetlight", "trash", "graffiti", "pothole", "streetlight"]

  /** Every sample issue has a colour of its own, none takes the fallback. */
  lemma SampleIssuesHaveColors()
    ensures |SampleIssueKinds| == 6
    ensures forall i :: 0 <= i < |SampleIssueKinds| ==> SampleIssueKinds[i] in MarkerColors
  {
  }

  // ---- Toasts ------------------------------------------------------------

  const ToastIcons: map<string, string> := map[
    "success" := "check-circle",
    "info" := "info-circle",
    "warning" := "exclamation-triangle",
    "error" := "times-circle"
  ]

  const ToastColors: map<string, string> := map[
    "success" := "#22c55e",
    "info" := "#3b82f6",
    "warning" := "#f59e0b",
    "error" := "#ef4444"
  ]

  /** getToastIcon: an unknown severity is shown as "info". */
  function ToastIcon(severity: string): (icon: string)
    ensures icon in ToastIcons.Values
    ensures severity in ToastIcons ==> icon == ToastIcons[severity]
    ensures severity !in ToastIcons ==> icon == ToastIcons["info"]
  {
    if severity in ToastIcons then ToastIcons[severity] else assert ToastIcons["info"] == "info-circle"; "info-circle"
  }

  /** getToastColor: an unknown severity is coloured as "info". */
  function ToastColor(severity: string): (color: string)
    ensures color in ToastColors.Values
    ensures severity in ToastColors ==> color == ToastColors[severity]
    ensures severity !in ToastColors ==> color == ToastColors["info"]
  {
    if severity in ToastColors then ToastColors[severity] else assert ToastColors["info"] == "#3b82f6"; "#3b82f6"
  }

  /** Icon and colour agree on the fallback: any severity is styled as a known one. */
  lemma ToastStyleIsKnown(severity: string)
    ensures exists known :: (known in ToastIcons && known in ToastColors
      && ToastIcon(severity) == ToastIcons[known] && ToastColor(severity) == ToastColors[known])
  {
    var known := if severity in ToastIcons then severity else "info";
    assert known in ToastIcons && known in ToastColors;
  }

  // ---- Activity feed -----------------------------------------------------

  const ActivityIcons: map<string, string> := map[
    "pothole" := "road",
    "streetlight" := "lightbulb",
    "trash" := "trash",
    "graffiti" := "spray-can",
    "noise" := "volume-up"
  ]

  const DefaultActivityIcon := "exclamation-triangle"

  /** getActivityIcon. */
  function ActivityIcon(kind: string): (icon: string)
    ensures icon in ActivityIcons.Values || icon == DefaultActivityIcon
    ensures kind in ActivityIcons ==> icon == ActivityIcons[kind]
    ensures kind !in ActivityIcons ==> icon == DefaultActivityIcon
  {
    if kind in ActivityIcons then ActivityIcons[kind] else DefaultActivityIcon
  }

  // ---- Appreciation ------------------------------------------------------

  const CivicStar := "civic-star"

  const AppreciationMessages: map<string, string> := map[
    "civic-star" := "Thank you for being an outstanding citizen! Your report about the pothole on Main St & 5th Ave has been successfully resolved. Your active participation helps make our community safer and better for everyone.",
    "community-hero" := "Congratulations on being recognized as a Community Hero! Your exceptional dedication to civic engagement and multiple successful reports have made a significant impact on our neighborhood. Thank you for going above and beyond!",
    "safety-champion" := "Your vigilance in reporting critical safety issues has earned you the Safety Champion recognition. Thank you for helping keep our community safe and preventing potential accidents through your proactive reporting."
  ]

  /** The message table of updateAppreciationMessage. */
  function AppreciationMessage(kind: string): (message: string)
    ensures message in AppreciationMessages.Values
    ensures kind in AppreciationMessages ==> message == AppreciationMessages[kind]
    ensures kind !in AppreciationMessages ==> message == AppreciationMessages[CivicStar]
  {
    if kind in AppreciationMessages then AppreciationMessages[kind]
    else assert CivicStar in AppreciationMessages; AppreciationMessages[CivicStar]
  }

  const AppreciationTypes: map<string, string> := map[
    "civic-star" := "Civic Star Award",
    "community-hero" := "Community Hero",
    "safety-champion" := "Safety Champion"
  ]

  /** getAppreciationType: the display name of an appreciation kind. */
  function AppreciationType(kind: string): (name: string)
    ensures name in AppreciationTypes.Values
    ensures kind in AppreciationTypes ==> name == AppreciationTypes[kind]
    ensures kind !in AppreciationTypes ==> name == AppreciationTypes[CivicStar]
  {
    if kind in AppreciationTypes then AppreciationTypes[kind] 
    else assert AppreciationTypes[CivicStar] == "Civic Star Award"; "Civic Star Award"
  }

  /**
   * The two appreciation tables cover the same kinds, so any kind gets the
   * name and the message of one and the same known kind.
   */
  lemma AppreciationTablesAgree(kind: string)
    ensures AppreciationMessages.Keys == AppreciationTypes.Keys
    ensures exists known :: (known in AppreciationTypes
      && AppreciationType(kind) == AppreciationTypes[known]
      && AppreciationMessage(kind) == AppreciationMessages[known])
  {
    var known := if kind in AppreciationTypes then kind else CivicStar;
    assert known in AppreciationTypes;
  }

  const RewardNames: map<string, string> := map[
    "certificate" := "Digital Certificate",
    "public-recognition" := "Public Recognition",
    "newsletter" := "Newsletter Feature",
    "social-media" := "Social Media Post"
  ]

  /** getRewardName: a reward value without a display name is shown as it is. */
  function RewardName(reward: string): (name: string)
    ensures reward in RewardNames ==> name == RewardNames[reward]
    ensures reward !in RewardNames ==> name == reward
    ensures name in RewardNames.Values || name == reward
  {
    if reward in RewardNames then RewardNames[reward] else reward
  }

  // ---- Response-time chart -----------------------------------------------

  const WeekSeries: seq<real> := [3.2, 2.8, 2.5, 2.9, 2.1, 1.8, 2.4]
  const MonthSeries: seq<real> := [3.5, 3.1, 2.9, 3.2, 2.8, 2.5, 2.7, 2.3]
  const QuarterSeries: seq<real> := [4.1, 3.8, 3.5, 3.2, 2.9, 2.6, 2.4, 2.2]

  /** The period switch of updateChartData: the data shown for a time button's label. */
  function ChartSeries(period: string): (data: seq<real>)
    ensures |data| == if period == "30D" || period == "90D" then 8 else 7
    ensures period != "30D" && period != "90D" ==> data == WeekSeries
    ensures period == "30D" ==> data == MonthSeries
    ensures period == "90D" ==> data == QuarterSeries
  {
    match period
    case "7D" => [3.2, 2.8, 2.5, 2.9, 2.1, 1.8, 2.4]
    case "30D" => MonthSeries
    case "90D" => QuarterSeries
    case _ => WeekSeries
  }
}

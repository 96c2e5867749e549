/** The dashboard: what it shows for a store snapshot. */
module Dashboard {
  import opened Text
  import opened WalletStore

  datatype QuickAction = QuickAction(title: string, description: string, target: string, disabled: bool)

  datatype ActivityKind = Success | Info

  datatype Activity = Activity(action: string, timestamp: Option<string>, kind: ActivityKind)

  datatype ButtonVariant = Ghost | Default

  /** What a quick-action button shows. */
  datatype ButtonFace = ButtonFace(caption: string, variant: ButtonVariant, enabled: bool)

  datatype DashboardView =
    | ConnectPrompt
    | Board(pointsText: string, quickActions: seq<QuickAction>, activityFeed: seq<Activity>)

  function QuickActions(s: WalletState): (r: seq<QuickAction>)
    ensures |r| == 2
    ensures r[0].target == "/profile#challenges" && r[1].target == "/profile#claim"
    ensures r[0].disabled <==> s.fibonacci.solved
    ensures r[1].disabled <==> s.cryptoPoints == 0
  {
    [ QuickAction("Solve Challenge: Fibonacci", "Complete the Fibonacci series challenge",
                  "/profile#challenges", s.fibonacci.solved),
      QuickAction("Claim Reward", "Claim your earned crypto points",
                  "/profile#claim", s.cryptoPoints == 0) ]
  }

  const ConnectedEntry: Activity := Activity("Connected wallet", Some("Just now"), Success)
  const ViewedEntry: Activity := Activity("Viewed Fibonacci Challenge", Some("5 minutes ago"), Info)

  function ActivityFeed(s: WalletState): (r: seq<Activity>)
    ensures |r| == if s.fibonacci.solved then 3 else 2
    ensures r[..2] == [ConnectedEntry, ViewedEntry]
    ensures s.fibonacci.solved ==>
      r[2] == Activity("Completed Fibonacci Challenge", s.fibonacci.lastSolvedAt, Success)
  {
    [ConnectedEntry, ViewedEntry]
    + (if s.fibonacci.solved
       then [Activity("Completed Fibonacci Challenge", s.fibonacci.lastSolvedAt, Success)]
       else [])
  }

  /** The button of a quick action: 'Completed' and ghost when disabled, 'Start' otherwise. */
  function Face(a: QuickAction): (f: ButtonFace)
    ensures f.caption == "Completed" <==> a.disabled
    ensures f.variant == Ghost <==> a.disabled
    ensures f.enabled <==> !a.disabled
    ensures !a.disabled ==> f.caption == "Start"
  {
    if a.disabled then ButtonFace("Completed", Ghost, false) else ButtonFace("Start", Default, true)
  }

  /** The page: only the connect prompt without an address (none, or the empty string). */
  function Render(s: WalletState): (v: DashboardView)
    ensures v.ConnectPrompt? <==> !Connected(s)
    ensures v.Board? ==>
      v.quickActions == QuickActions(s) && v.activityFeed == ActivityFeed(s)
      && v.pointsText == FormatPoints(s.cryptoPoints)
  {
    if !Connected(s) then ConnectPrompt
    else Board(FormatPoints(s.cryptoPoints), QuickActions(s), ActivityFeed(s))
  }
}

/** The desktop alert sent for the target process. Only its text is modelled;
    delivery is the desktop's business. */
module Notify {
  import opened Numbers
  import opened Text
  import opened Matcher

  const SUMMARY: string := "GPU Usage"
  const ICON: string := "dialog-information"
  const IS_UTILIZING: string := " is utilizing "
  const MB_OF_MEMORY: string := " MB of memory"

  datatype Notification = Notification(summary: string, body: string, icon: string)

  /** `"{} is utilizing {} MB of memory"` with the capitalized process name
      and its megabyte figure: the capitalized name, then " is utilizing ",
      then the figure in canonical decimal, then " MB of memory". */
  function NotificationBody(info: SingleProcessInfo): (body: string)
    ensures var cap := Capitalize(info.name);
      && |body| > |cap| + |IS_UTILIZING| + |MB_OF_MEMORY|
      && body[..|cap|] == cap
      && body[|cap|..|cap| + |IS_UTILIZING|] == IS_UTILIZING
      && body[|body| - |MB_OF_MEMORY|..] == MB_OF_MEMORY
      && var figure := body[|cap| + |IS_UTILIZING|..|body| - |MB_OF_MEMORY|];
         IsCanonicalDecimal(figure) && DecimalValue(figure) == info.memoryUsage
  {
    var cap := Capitalize(info.name);
    var figure := NatToString(info.memoryUsage);
    var body := cap + IS_UTILIZING + figure + MB_OF_MEMORY;
    assert body[|cap| + |IS_UTILIZING|..|body| - |MB_OF_MEMORY|] == figure;
    body
  }

  /** The alert `main` sends for a matched process: fixed summary and icon,
      and the body above. */
  function TargetNotification(info: SingleProcessInfo): (n: Notification)
    ensures n.summary == SUMMARY && n.icon == ICON
    ensures n.body == NotificationBody(info)
  {
    Notification(SUMMARY, NotificationBody(info), ICON)
  }
}

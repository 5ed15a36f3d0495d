/** The texts of the TimeoutErrors the worker raises on its own. */
module TimeoutTexts {
  import opened Text

  datatype TimedJob = StudioDeploy | GithubDeploy | PreviewDeploy

  function IntText(n: int): string
  {
    if n < 0 then "-" + Decimal(-n) else Decimal(n)
  }

  function Name(t: TimedJob): (s: string)
    ensures 'm' !in s && 'M' !in s
  {
    match t
    case StudioDeploy => "studio.deploy"
    case GithubDeploy => "static_site.github_deploy"
    case PreviewDeploy => "static_site.preview_deploy"
  }

  /** The text of the TimeoutError the worker raises itself. */
  function TimeoutText(t: TimedJob, seconds: int): string
  {
    Name(t) + " exceeded " + IntText(seconds) + "s"
  }

  lemma {:induction false} LowerAddsNoM(s: string)
    requires 'm' !in s && 'M' !in s
    ensures 'm' !in Lower(s)
  {
    if s != [] {
      LowerAddsNoM(s[1..]);
    }
  }

  lemma OwnTextHasNoM(t: TimedJob, seconds: int)
    ensures 'm' !in TimeoutText(t, seconds) && 'M' !in TimeoutText(t, seconds)
  {
    var a, b, n := Name(t), " exceeded ", IntText(seconds);
    assert forall c :: c in n ==> c == '-' || '0' <= c <= '9';
    assert forall c :: c in a + b + n + "s" ==> c in a || c in b || c in n || c == 's';
  }

  lemma NeverSaysTimeout(text: string)
    requires 'm' !in text && 'M' !in text
    ensures !Contains(Lower(text), "timeout")
  {
    LowerAddsNoM(text);
    var word := "timeout";
    assert word[2] == 'm';
    MissingCharacter(Lower(text), word, 'm');
  }
}

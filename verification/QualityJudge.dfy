/** The quality score of a run, in ten-thousandths. */
module QualityJudge {

  function Penalty(applies: bool, points: int): int {
    if applies then points else 0
  }

  /** The mean of the four dimensions; each sum is a multiple of four, so rounding to four places is exact. */
  function TotalScore(completed: bool, issueCodes: seq<string>, previewIssueCodes: seq<string>): (total: int)
    ensures total == 9250 - Penalty(!completed, 1250) - Penalty("static_previews" in previewIssueCodes, 1250)
                     - Penalty(issueCodes != [], 500) - Penalty(previewIssueCodes != [], 500)
  {
    var status := if completed then 10000 else 5000;
    var motion := if "static_previews" in previewIssueCodes then 4000 else 9000;
    var alignment := if issueCodes != [] then 7000 else 9000;
    var clarity := if previewIssueCodes != [] then 7000 else 9000;
    (status + motion + alignment + clarity) / 4
  }
}

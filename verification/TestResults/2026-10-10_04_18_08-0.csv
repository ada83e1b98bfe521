TestResult.DisplayName,TestResult.Outcome,TestResult.Duration,TestResult.ResourceCount,RandomSeed
ExtensionOrders.DigitRunOf (well-formedness),Passed,00:00:00.1405082,16763,0
ExtensionOrders.DigitRunOf (correctness),Passed,00:00:00.1057757,67695,0

TestResult.DisplayName,TestResult.Outcome,TestResult.Duration,TestResult.ResourceCount,RandomSeed
ExtensionOrders.DigitRunOf (well-formedness),Passed,00:00:00.1024335,16743,4
ExtensionOrders.DigitRunOf (correctness),Passed,00:00:00.0884894,44989,4

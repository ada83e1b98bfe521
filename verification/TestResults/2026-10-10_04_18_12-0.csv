TestResult.DisplayName,TestResult.Outcome,TestResult.Duration,TestResult.ResourceCount,RandomSeed
ExtensionOrders.DigitRunOf (correctness),Failed,00:00:00.5440112,2013927,1
ExtensionOrders.DigitRunOf (well-formedness),Passed,00:00:00.1030299,15636,1

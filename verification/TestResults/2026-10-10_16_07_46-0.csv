TestResult.DisplayName,TestResult.Outcome,TestResult.Duration,TestResult.ResourceCount,RandomSeed
UsersQuery.NonCanonicalEntries (correctness),Failed,00:04:08.8922215,8075064,3
UsersQuery.NonCanonicalEntriesFallBack (correctness),Passed,00:00:00.5274357,163286,3
